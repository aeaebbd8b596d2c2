/** internal/probe/starttls.go: the bounded reader, the multiline reply format of section 4.2.1
    of RFC 5321, and the SMTP dialog that leads up to the TLS handshake. */
module Smtp {
  import opened Domain

  const MAX_BYTES: nat := 65536
  const MAX_LINES: nat := 100

  // ----- lines ----------------------------------------------------------------------------

  /** What the server will still send until it closes, and how much of it may be read. */
  datatype Wire = Wire(stream: string, budget: nat)

  /** A line with its newline, or why there is none: the byte budget is spent, or the
      connection ended first. */
  datatype Fetched = Line(text: string) | Oversized | Closed

  /** readLine, behind what it got of the line so far. */
  function ReadLine(w: Wire, got: string): (r: (Fetched, Wire))
    ensures 0 <= w.budget - r.1.budget == |w.stream| - |r.1.stream|
    decreases |w.stream|
  {
    if w.budget == 0 then (Oversized, w)
    else if w.stream == "" then (Closed, w)
    else
      var rest := Wire(w.stream[1..], w.budget - 1);
      if w.stream[0] == '\n' then (Line(got + "\n"), rest) else ReadLine(rest, got + [w.stream[0]])
  }

  /** strings.TrimRight(line, "\r\n"). */
  function TrimRight(s: string): string {
    if s != "" && (Last(s) == '\r' || Last(s) == '\n') then TrimRight(Init(s)) else s
  }

  function Join(lines: seq<string>): string {
    if lines == [] then "" else if |lines| == 1 then lines[0] else lines[0] + "\n" + Join(lines[1..])
  }

  /** The lines in order with a newline between each two. */
  lemma {:induction false} JoinConcat(a: seq<string>, b: seq<string>)
    requires a != [] && b != []
    ensures Join(a + b) == Join(a) + "\n" + Join(b)
    ensures Join([a[0]]) == a[0]
  {
    if |a| > 1 {
      JoinConcat(a[1..], b);
      assert (a + b)[1..] == a[1..] + b;
      assert a[0] + "\n" + (Join(a[1..]) + "\n" + Join(b)) == a[0] + "\n" + Join(a[1..]) + "\n" + Join(b);
    } else {
      assert (a + b)[1..] == b;
    }
  }

  // ----- replies --------------------------------------------------------------------------

  datatype Outcome =
    | Got(code: string, text: string)
    | TooManyLines
    | Broken(why: Fetched)
    | Malformed(line: string)

  predicate Continues(line: string) { |line| >= 4 && line[3] == '-' }

  /** One reply, after the lines seen so far. */
  function ReadReply(w: Wire, seen: seq<string>): (Outcome, Wire)
    requires |seen| <= MAX_LINES
    decreases MAX_LINES - |seen|
  {
    if |seen| >= MAX_LINES then (TooManyLines, w)
    else
      var (fetched, rest) := ReadLine(w, "");
      if !fetched.Line? then (Broken(fetched), rest)
      else
        var line := TrimRight(fetched.text);
        if Continues(line) then ReadReply(rest, seen + [line])
        else if |line| < 3 then (Malformed(line), rest)
        else (Got(line[..3], Join(seen + [line])), rest)
  }

  datatype Dialog = Ready | Unsupported | Failed

  /** U+017F, the long s, in UTF-8; a char of a stream stands for a byte. */
  const LONG_S := "\U{00C5}\U{00BF}"

  function Upper(c: char): char { if 'a' <= c <= 'z' then c - 'a' + 'A' else c }

  /** strings.ToUpper as far as an ASCII keyword can tell: of the letters beyond ASCII only
      the long s and the dotless i have one in ASCII, and no keyword here has an I. */
  function UpperText(s: string): string
    decreases |s|
  {
    if s == "" then "" else Letter(s) + UpperText(s[Width(s)..])
  }

  predicate StartsLongS(s: string) { |s| > 1 && s[0] == LONG_S[0] && s[1] == LONG_S[1] }

  function Width(s: string): nat { if StartsLongS(s) then 2 else 1 }

  /** The first character in upper case. */
  function Letter(s: string): string
    requires s != ""
  {
    if StartsLongS(s) then "S" else [Upper(s[0])]
  }

  predicate StandsAt(s: string, word: string, i: int) {
    0 <= i <= |s| - |word| && s[i..i + |word|] == word
  }

  predicate Contains(s: string, word: string) { exists i :: 0 <= i <= |s| && StandsAt(s, word, i) }

  /** Whether an EHLO reply offers STARTTLS. */
  predicate Advertises(text: string) { Contains(UpperText(text), "STARTTLS") }

  /** A spelling of an upper-case keyword, letter by letter in either case, or with a long s. */
  predicate Spells(word: string, keyword: string) {
    if keyword == "" then word == ""
    else word != "" && Letter(word) == keyword[..1] && Spells(word[Width(word)..], keyword[1..])
  }

  lemma Regroup(a: string, b: string, c: string)
    ensures a + (b + c) == (a + b) + c
  {
  }

  /** The seam does not cut a long s in two. */
  predicate Joins(before: string, rest: string) {
    before == "" || rest == "" || Last(before) != LONG_S[0] || rest[0] != LONG_S[1]
  }

  lemma FirstLetter(before: string, rest: string)
    requires before != "" && Joins(before, rest)
    ensures var n := Width(before);
            n <= |before| && Letter(before + rest) == Letter(before) && Width(before + rest) == n
            && (before + rest)[n..] == before[n..] + rest
  {
  }

  lemma {:induction false} UpperBehind(before: string, rest: string)
    requires Joins(before, rest)
    ensures UpperText(before + rest) == UpperText(before) + UpperText(rest)
    decreases |before|
  {
    if before == "" {
      assert before + rest == rest && "" + UpperText(rest) == UpperText(rest);
    } else {
      FirstLetter(before, rest);
      UpperBehind(before[Width(before)..], rest);
      Regroup(Letter(before), UpperText(before[Width(before)..]), UpperText(rest));
    }
  }

  lemma {:induction false} SpelledInUpper(word: string, keyword: string)
    requires Spells(word, keyword) && LONG_S[0] !in keyword && LONG_S[1] !in keyword
    ensures UpperText(word) == keyword
    ensures word != "" ==> Last(word) != LONG_S[0] && word[0] != LONG_S[1]
    decreases |keyword|
  {
    if keyword != "" {
      SpelledInUpper(word[Width(word)..], keyword[1..]);
      assert keyword == keyword[..1] + keyword[1..];
    }
  }

  /** The keyword is found anywhere in the reply, in any spelling. */
  lemma OfferInAnyCase(before: string, word: string, after: string)
    requires Spells(word, "STARTTLS")
    ensures Advertises(before + word + after)
  {
    SpelledInUpper(word, "STARTTLS");
    UpperBehind(before, word);
    UpperBehind(before + word, after);
    var at, upper := |UpperText(before)|, UpperText(before + word + after);
    assert upper[at..at + 8] == "STARTTLS";
    assert StandsAt(upper, "STARTTLS", at);
  }

  lemma {:induction false} SpelledByPrefix(text: string, keyword: string) returns (word: string)
    requires |keyword| <= |UpperText(text)| && UpperText(text)[..|keyword|] == keyword
    ensures |word| <= |text| && text[..|word|] == word && Spells(word, keyword)
    decreases |keyword|
  {
    if keyword == "" {
      word := "";
    } else {
      var n := Width(text);
      var upper := UpperText(text[n..]);
      assert UpperText(text) == Letter(text) + upper && |Letter(text)| == 1;
      assert upper[..|keyword| - 1] == keyword[1..];
      var rest := SpelledByPrefix(text[n..], keyword[1..]);
      word := text[..n] + rest;
      assert word[n..] == rest && Width(word) == n && Letter(word) == keyword[..1];
    }
  }

  lemma {:induction false} SpelledAt(text: string, keyword: string, i: nat) returns (before: string, word: string)
    requires i <= |UpperText(text)| && StandsAt(UpperText(text), keyword, i)
    ensures |before + word| <= |text| && text[..|before + word|] == before + word && Spells(word, keyword)
    decreases i
  {
    if i == 0 {
      before := "";
      word := SpelledByPrefix(text, keyword);
      assert before + word == word;
    } else {
      var n := Width(text);
      var upper := UpperText(text[n..]);
      assert UpperText(text) == Letter(text) + upper && |Letter(text)| == 1;
      assert upper[i - 1..i - 1 + |keyword|] == UpperText(text)[i..i + |keyword|];
      before, word := SpelledAt(text[n..], keyword, i - 1);
      assert text[..n] + (before + word) == (text[..n] + before) + word;
      before := text[..n] + before;
    }
  }

  /** And nowhere else. */
  lemma OfferIsSpelled(text: string) returns (before: string, word: string, after: string)
    requires Advertises(text)
    ensures text == before + word + after && Spells(word, "STARTTLS")
  {
    var i :| 0 <= i <= |UpperText(text)| && StandsAt(UpperText(text), "STARTTLS", i);
    before, word := SpelledAt(text, "STARTTLS", i);
    after := text[|before + word|..];
  }

  /** limitedReader over one connection, and the dialog run over it. */
  class Reader {
    var wire: Wire

    constructor (stream: string)
      ensures wire == Wire(stream, MAX_BYTES)
    {
      wire := Wire(stream, MAX_BYTES);
    }

    /** readSMTPResponse; read counts the lines it consumed. */
    method ReadResponse() returns (outcome: Outcome, read: nat)
      modifies this
      ensures (outcome, wire) == ReadReply(old(wire), [])
      ensures read <= MAX_LINES
      ensures wire.budget <= old(wire).budget
      ensures |old(wire).stream| - |wire.stream| == old(wire).budget - wire.budget
    {
      var lines: seq<string> := [];
      while true
        invariant |lines| <= MAX_LINES
        invariant ReadReply(wire, lines) == ReadReply(old(wire), [])
        invariant wire.budget <= old(wire).budget
        invariant |old(wire).stream| - |wire.stream| == old(wire).budget - wire.budget
        decreases MAX_LINES - |lines|
      {
        if |lines| >= MAX_LINES {
          return TooManyLines, |lines|;
        }
        var (fetched, rest) := ReadLine(wire, "");
        wire := rest;
        if !fetched.Line? {
          return Broken(fetched), |lines|;
        }
        var line := TrimRight(fetched.text);
        lines := lines + [line];
        if |line| < 4 || line[3] != '-' {
          if |line| < 3 {
            return Malformed(line), |lines|;
          }
          return Got(line[..3], Join(lines)), |lines|;
        }
      }
    }

    /** Contains, by scanning. */
    method Offers(text: string) returns (found: bool)
      ensures found <==> Advertises(text)
    {
      var upper, word := UpperText(text), "STARTTLS";
      for i := 0 to |upper| + 1
        invariant forall k :: 0 <= k < i ==> !StandsAt(upper, word, k)
      {
        if StandsAt(upper, word, i) {
          return true;
        }
      }
      return false;
    }

    /** starttlsSMTP, up to the writes: three replies, each with the code it has to have. */
    method StartTLS() returns (result: Dialog)
      modifies this
      ensures result == Conclude(old(wire))
      ensures |old(wire).stream| - |wire.stream| <= old(wire).budget
    {
      var greeting, _ := ReadResponse();
      if !greeting.Got? || greeting.code != "220" {
        return Failed;
      }
      var ehlo, _ := ReadResponse();
      if !ehlo.Got? || ehlo.code != "250" {
        return Failed;
      }
      var offered := Offers(ehlo.text);
      if !offered {
        return Unsupported;
      }
      var answer, _ := ReadResponse();
      if !answer.Got? {
        return Failed;
      }
      return if answer.code == "220" then Ready else Unsupported;
    }
  }

  function Conclude(w: Wire): Dialog {
    var (greeting, w1) := ReadReply(w, []);
    var (ehlo, w2) := ReadReply(w1, []);
    var (answer, w3) := ReadReply(w2, []);
    if !greeting.Got? || greeting.code != "220" || !ehlo.Got? || ehlo.code != "250" then Failed
    else if !Advertises(ehlo.text) then Unsupported
    else if !answer.Got? then Failed
    else if answer.code == "220" then Ready
    else Unsupported
  }

  // ----- printing replies -----------------------------------------------------------------

  /** A reply as RFC 5321 writes it: continuation texts, then the final one, if it has one. */
  datatype Reply = Reply(code: string, more: seq<string>, final: Option<string>)

  predicate Clean(text: string) { forall i :: 0 <= i < |text| ==> text[i] != '\r' && text[i] != '\n' }

  predicate WellFormed(r: Reply) {
    && |r.code| == 3 && Clean(r.code)
    && (forall i :: 0 <= i < |r.more| ==> Clean(r.more[i]))
    && (r.final.Some? ==> Clean(r.final.value))
  }

  function MoreLines(code: string, more: seq<string>): seq<string> {
    if more == [] then [] else [code + "-" + more[0]] + MoreLines(code, more[1..])
  }

  function Lines(r: Reply): seq<string> {
    MoreLines(r.code, r.more) + [if r.final.Some? then r.code + " " + r.final.value else r.code]
  }

  function Encode(lines: seq<string>): string {
    if lines == [] then "" else lines[0] + "\r\n" + Encode(lines[1..])
  }

  function Printed(r: Reply): string { Encode(Lines(r)) }

  /** What reading the reply should give. */
  function Meaning(r: Reply): Outcome { Got(r.code, Join(Lines(r))) }

  // ----- reading back what was printed ----------------------------------------------------

  lemma {:induction false} LineReads(line: string, tail: string, budget: nat, got: string)
    requires Clean(line)
    ensures var w := Wire(line + "\r\n" + tail, budget);
            if |line| + 2 <= budget
            then ReadLine(w, got) == (Line(got + line + "\r\n"), Wire(tail, budget - |line| - 2))
            else ReadLine(w, got).0 == Oversized
    decreases |line|
  {
    var stream := line + "\r\n" + tail;
    if line == "" {
      BareLineReads(tail, budget, got);
      assert stream == "\r\n" + tail && got + line == got;
    } else if budget > 0 {
      assert stream[0] == line[0] && stream[1..] == line[1..] + "\r\n" + tail;
      assert got + [line[0]] + line[1..] == got + line;
      LineReads(line[1..], tail, budget - 1, got + [line[0]]);
    }
  }

  lemma BareLineReads(tail: string, budget: nat, got: string)
    ensures var w := Wire("\r\n" + tail, budget);
            if 2 <= budget then ReadLine(w, got) == (Line(got + "\r\n"), Wire(tail, budget - 2))
            else ReadLine(w, got).0 == Oversized
  {
    var stream := "\r\n" + tail;
    assert stream[0] == '\r' && stream[1..] == "\n" + tail;
    if budget > 0 {
      var next := Wire("\n" + tail, budget - 1);
      assert ReadLine(Wire(stream, budget), got) == ReadLine(next, got + ['\r']);
      assert next.stream[0] == '\n' && next.stream[1..] == tail;
      assert got + ['\r'] + "\n" == got + "\r\n";
    }
  }

  lemma TrimmedLine(line: string)
    requires Clean(line)
    ensures TrimRight(line + "\r\n") == line
  {
    assert TrimRight(line) == line;
    assert Init(line + "\r") == line;
    assert TrimRight(line + "\r") == line;
    assert Init(line + "\r\n") == line + "\r";
  }

  lemma OneLineRead(line: string, later: string, budget: nat, seen: seq<string>)
    requires Clean(line) && |line| >= 3 && |seen| <= MAX_LINES
    ensures ReadReply(Wire(line + "\r\n" + later, budget), seen).0
         == if |seen| == MAX_LINES then TooManyLines
            else if |line| + 2 > budget then Broken(Oversized)
            else if Continues(line) then ReadReply(Wire(later, budget - |line| - 2), seen + [line]).0
            else Got(line[..3], Join(seen + [line]))
    ensures |seen| < MAX_LINES && |line| + 2 <= budget ==>
              ReadReply(Wire(line + "\r\n" + later, budget), seen).1
              == if Continues(line) then ReadReply(Wire(later, budget - |line| - 2), seen + [line]).1
                 else Wire(later, budget - |line| - 2)
  {
    LineReads(line, later, budget, "");
    assert "" + line == line;
    TrimmedLine(line);
  }

  /** Lines as the reader expects them: every one but the last is a continuation. */
  predicate ReplyLines(lines: seq<string>) {
    && lines != []
    && forall i :: 0 <= i < |lines| ==>
         Clean(lines[i]) && |lines[i]| >= 3 && (Continues(lines[i]) <==> i < |lines| - 1)
  }

  lemma ReplyLinesRest(lines: seq<string>)
    requires ReplyLines(lines) && |lines| > 1
    ensures Continues(lines[0]) && ReplyLines(lines[1..]) && Last(lines[1..]) == Last(lines)
  {
  }

  lemma EncodeFirst(lines: seq<string>, tail: string)
    requires lines != []
    ensures Encode(lines) + tail == lines[0] + "\r\n" + (Encode(lines[1..]) + tail)
    ensures |Encode(lines)| == |lines[0]| + 2 + |Encode(lines[1..])|
  {
  }

  /** The reader gets a reply exactly when it has at most 100 lines and fits the budget; then
      it gives the code and the joined lines and stops right behind the reply. */
  lemma {:induction false} LinesRead(lines: seq<string>, seen: seq<string>, tail: string, budget: nat)
    requires ReplyLines(lines) && |seen| <= MAX_LINES
    ensures var (outcome, rest) := ReadReply(Wire(Encode(lines) + tail, budget), seen);
            if |seen| + |lines| <= MAX_LINES && |Encode(lines)| <= budget
            then outcome == Got(Last(lines)[..3], Join(seen + lines)) && rest == Wire(tail, budget - |Encode(lines)|)
            else outcome == TooManyLines || outcome == Broken(Oversized)
    decreases |lines|
  {
    var line, others := lines[0], lines[1..];
    var later := Encode(others) + tail;
    EncodeFirst(lines, tail);
    OneLineRead(line, later, budget, seen);
    if others == [] {
      assert lines == [line] && later == tail;
    } else if |seen| < MAX_LINES && |line| + 2 <= budget {
      ReplyLinesRest(lines);
      LinesRead(others, seen + [line], tail, budget - |line| - 2);
      assert seen + [line] + others == seen + lines;
    }
  }

  lemma {:induction false} LinesAreReplyLines(code: string, more: seq<string>, final: string)
    requires |code| == 3 && Clean(code) && Clean(final) && |final| >= 3 && !Continues(final)
    requires forall i :: 0 <= i < |more| ==> Clean(more[i])
    ensures ReplyLines(MoreLines(code, more) + [final])
  {
    if more != [] {
      var rest := MoreLines(code, more[1..]) + [final];
      LinesAreReplyLines(code, more[1..], final);
      var all := MoreLines(code, more) + [final];
      assert all == [code + "-" + more[0]] + rest;
    }
  }

  /** Reading back one printed reply. */
  lemma ReplyRoundTrip(r: Reply, tail: string, budget: nat)
    requires WellFormed(r)
    ensures var (outcome, rest) := ReadReply(Wire(Printed(r) + tail, budget), []);
            if |Lines(r)| <= MAX_LINES && |Printed(r)| <= budget
            then outcome == Meaning(r) && rest == Wire(tail, budget - |Printed(r)|)
            else outcome == TooManyLines || outcome == Broken(Oversized)
  {
    LinesOfReply(r);
    LinesRead(Lines(r), [], tail, budget);
    assert [] + Lines(r) == Lines(r);
  }

  lemma LinesOfReply(r: Reply)
    requires WellFormed(r)
    ensures ReplyLines(Lines(r)) && Last(Lines(r))[..3] == r.code
  {
    LinesAreReplyLines(r.code, r.more, Last(Lines(r)));
  }

  function PrintedAll(rs: seq<Reply>): string {
    if rs == [] then "" else Printed(rs[0]) + PrintedAll(rs[1..])
  }

  function ReadAll(w: Wire, n: nat): seq<Outcome>
    decreases n
  {
    if n == 0 then [] else var (outcome, rest) := ReadReply(w, []); [outcome] + ReadAll(rest, n - 1)
  }

  /** Reading back any sequence of replies that keeps to the bounds. */
  lemma {:induction false} RepliesRoundTrip(rs: seq<Reply>, tail: string, budget: nat)
    requires forall i :: 0 <= i < |rs| ==> WellFormed(rs[i]) && |Lines(rs[i])| <= MAX_LINES
    requires |PrintedAll(rs)| <= budget
    ensures |ReadAll(Wire(PrintedAll(rs) + tail, budget), |rs|)| == |rs|
    ensures forall i :: 0 <= i < |rs| ==> ReadAll(Wire(PrintedAll(rs) + tail, budget), |rs|)[i] == Meaning(rs[i])
  {
    if rs != [] {
      var later := PrintedAll(rs[1..]) + tail;
      assert PrintedAll(rs) + tail == Printed(rs[0]) + later;
      ReplyRoundTrip(rs[0], later, budget);
      RepliesRoundTrip(rs[1..], tail, budget - |Printed(rs[0])|);
    }
  }

  lemma ThreeReplies(w0: Wire, w1: Wire, w2: Wire, w3: Wire, greeting: Outcome, ehlo: Outcome, answer: Outcome)
    requires ReadReply(w0, []) == (greeting, w1) && ReadReply(w1, []) == (ehlo, w2) && ReadReply(w2, []) == (answer, w3)
    requires greeting.Got? && ehlo.Got? && answer.Got?
    ensures Conclude(w0)
         == if greeting.code != "220" || ehlo.code != "250" then Failed
            else if Advertises(ehlo.text) && answer.code == "220" then Ready
            else Unsupported
  {
  }

  /** The server sends r, and next is what is left of the wire behind it. */
  predicate Sends(w: Wire, r: Reply, next: Wire) {
    && WellFormed(r) && |Lines(r)| <= MAX_LINES
    && w.stream == Printed(r) + next.stream && w.budget == next.budget + |Printed(r)|
  }

  lemma ReplyReads(w: Wire, r: Reply, next: Wire)
    requires Sends(w, r, next)
    ensures ReadReply(w, []) == (Meaning(r), next)
  {
    ReplyRoundTrip(r, next.stream, w.budget);
  }

  /** How the dialog classifies a server that speaks in well-formed replies within the bounds:
      ready, tls_unavailable, or failed (unreachable); nothing the server sends after its third
      reply matters. */
  lemma DialogIsExact(w0: Wire, greeting: Reply, w1: Wire, ehlo: Reply, w2: Wire, answer: Reply, w3: Wire)
    requires Sends(w0, greeting, w1) && Sends(w1, ehlo, w2) && Sends(w2, answer, w3)
    ensures Conclude(w0)
         == if greeting.code != "220" || ehlo.code != "250" then Failed
            else if Advertises(Join(Lines(ehlo))) && answer.code == "220" then Ready
            else Unsupported
  {
    ReplyReads(w0, greeting, w1);
    ReplyReads(w1, ehlo, w2);
    ReplyReads(w2, answer, w3);
    ThreeReplies(w0, w1, w2, w3, Meaning(greeting), Meaning(ehlo), Meaning(answer));
  }

  // ----- replies that cannot be read -------------------------------------------------------

  /** What comes before a newline is no line: the budget is spent, or the connection ended. */
  lemma {:induction false} NoNewlineNoLine(stream: string, budget: nat, got: string)
    requires '\n' !in stream
    ensures ReadLine(Wire(stream, budget), got).0 == if budget <= |stream| then Oversized else Closed
    decreases |stream|
  {
    if stream != "" && budget > 0 {
      NoNewlineNoLine(stream[1..], budget - 1, got + [stream[0]]);
    }
  }

  /** A reply that stops within its first line, and one whose line is too short for a code. */
  lemma CutOffReplies(stream: string, budget: nat, line: string, later: string)
    requires '\n' !in stream && Clean(line) && |line| < 3
    ensures ReadReply(Wire(stream, budget), []).0 == Broken(if budget <= |stream| then Oversized else Closed)
    ensures ReadReply(Wire(line + "\r\n" + later, budget), []).0
         == if |line| + 2 <= budget then Malformed(line) else Broken(Oversized)
  {
    NoNewlineNoLine(stream, budget, "");
    LineReads(line, later, budget, "");
    assert "" + line == line;
    TrimmedLine(line);
  }

  /** A dialog that comes to a reply it cannot read has failed, whichever of the three it is. */
  lemma UnreadableReplyFails(w0: Wire, greeting: Reply, w1: Wire, ehlo: Reply, w2: Wire)
    ensures !ReadReply(w0, []).0.Got? ==> Conclude(w0) == Failed
    ensures Sends(w0, greeting, w1) && !ReadReply(w1, []).0.Got? ==> Conclude(w0) == Failed
    ensures Sends(w0, greeting, w1) && Sends(w1, ehlo, w2) && !ReadReply(w2, []).0.Got? ==>
              Conclude(w0)
              == if greeting.code == "220" && ehlo.code == "250" && !Advertises(Join(Lines(ehlo))) then Unsupported
                 else Failed
  {
    if Sends(w0, greeting, w1) {
      ReplyReads(w0, greeting, w1);
      if Sends(w1, ehlo, w2) {
        ReplyReads(w1, ehlo, w2);
      }
    }
  }
}
