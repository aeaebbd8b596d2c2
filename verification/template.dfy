/** Strings of internal/alert/template.go, and expandEnv of internal/config/config.go: tokens,
    references, the single pass over a template, and escaping through its two phases. */
module Template {
  import opened Domain

  // ----- strings ------------------------------------------------------------------------

  function Index(s: string, c: char): (i: int)
    ensures -1 <= i < |s|
    ensures i >= 0 ==> s[i] == c && c !in s[..i]
    ensures i < 0 ==> c !in s
  {
    if s == [] then -1
    else if s[0] == c then 0
    else
      var j := Index(s[1..], c);
      assert j >= 0 ==> s[..j + 1] == [s[0]] + s[1..][..j];
      assert s == [s[0]] + s[1..];
      if j < 0 then -1 else j + 1
  }

  lemma IndexIs(s: string, c: char, k: nat)
    requires k < |s| && s[k] == c && c !in s[..k]
    ensures Index(s, c) == k
  {
  }

  /** unicode.IsSpace. */
  predicate IsSpace(c: char) {
    || c in "\t\n\r " || c == '\U{000B}' || c == '\U{000C}' || c == '\U{0085}' || c == '\U{00A0}'
    || c == '\U{1680}' || '\U{2000}' <= c <= '\U{200A}' || c == '\U{2028}' || c == '\U{2029}'
    || c == '\U{202F}' || c == '\U{205F}' || c == '\U{3000}'
  }

  /** By code point. */
  lemma SpacesByCode(c: char)
    ensures IsSpace(c)
       <==> var code := c as int;
            || 0x09 <= code <= 0x0D || code in {0x20, 0x85, 0xA0, 0x1680} || 0x2000 <= code <= 0x200A
            || code in {0x2028, 0x2029, 0x202F, 0x205F, 0x3000}
  {
  }

  /** strings.TrimSpace. */
  function Trim(s: string): (t: string)
    decreases |s|
  {
    if s == [] then s
    else if IsSpace(s[0]) then Trim(s[1..])
    else if IsSpace(Last(s)) then Trim(Init(s))
    else s
  }

  /** Trimming takes white space off both ends, all of it and nothing else. */
  lemma {:induction false} TrimTakesSpaces(s: string) returns (left: string, right: string)
    ensures s == left + Trim(s) + right
    ensures forall c :: c in left + right ==> IsSpace(c)
    ensures Trim(s) != "" ==> !IsSpace(Trim(s)[0]) && !IsSpace(Last(Trim(s)))
    decreases |s|
  {
    left, right := "", "";
    if s != "" {
      if IsSpace(s[0]) {
        left, right := TrimTakesSpaces(s[1..]);
        assert s == [s[0]] + s[1..];
        left := [s[0]] + left;
      } else if IsSpace(Last(s)) {
        left, right := TrimTakesSpaces(Init(s));
        assert s == Init(s) + [Last(s)];
        right := right + [Last(s)];
      }
    }
  }

  // ----- tokens -------------------------------------------------------------------------

  /** A template as the pattern (\$?)\$\{([^}]*)\} cuts it, scanning left to right. */
  datatype Segment = Lit(c: char) | Token(escaped: bool, inner: string)

  datatype Match = NoMatch | Match(escaped: bool, inner: string, length: nat)

  /** The match that starts at the beginning of s, if there is one. */
  function MatchAt(s: string): Match {
    if |s| >= 3 && s[0] == '$' && s[1] == '$' && s[2] == '{' && Index(s[3..], '}') >= 0 then
      var i := Index(s[3..], '}');
      Match(true, s[3..3 + i], i + 4)
    else if |s| >= 2 && s[0] == '$' && s[1] == '{' && Index(s[2..], '}') >= 0 then
      var i := Index(s[2..], '}');
      Match(false, s[2..2 + i], i + 3)
    else NoMatch
  }

  function PrintSegment(seg: Segment): string {
    match seg
    case Lit(c) => [c]
    case Token(escaped, inner) => (if escaped then "$${" else "${") + inner + "}"
  }

  function Print(segs: seq<Segment>): string {
    if segs == [] then "" else PrintSegment(segs[0]) + Print(segs[1..])
  }

  /** The text a match covers, from its first character to its closing brace. */
  lemma MatchPrints(s: string)
    ensures var m := MatchAt(s);
            m.Match? ==>
              0 < m.length <= |s| && '}' !in m.inner && s[..m.length] == PrintSegment(Token(m.escaped, m.inner))
  {
    var m := MatchAt(s);
    if m.Match? {
      var k := if m.escaped then 3 else 2;
      Splits(s, k, Index(s[k..], '}'));
      assert s[..k] == if m.escaped then "$${" else "${";
    }
  }

  lemma Splits(s: string, k: nat, i: nat)
    requires k + i < |s|
    ensures s[..k + i + 1] == s[..k] + s[k..k + i] + [s[k + i]]
    ensures s[k..][..i] == s[k..k + i] && s[k..][i] == s[k + i]
  {
  }

  lemma PrintMatches(escaped: bool, inner: string, rest: string)
    requires '}' !in inner
    ensures var p := PrintSegment(Token(escaped, inner));
            MatchAt(p + rest) == Match(escaped, inner, |p|)
  {
    var opening := if escaped then "$${" else "${";
    var p, k := PrintSegment(Token(escaped, inner)), |opening|;
    var tail := inner + "}" + rest;
    assert p + rest == opening + tail;
    assert (p + rest)[k..] == tail;
    assert tail[..|inner|] == inner;
    IndexIs(tail, '}', |inner|);
    assert (p + rest)[k..k + |inner|] == inner;
  }

  /** The first segment of s and the width it covers. */
  function Head(s: string): (h: (Segment, nat))
    requires s != ""
    ensures 0 < h.1 <= |s|
    ensures s[..h.1] == PrintSegment(h.0)
    ensures h.0.Token? ==> '}' !in h.0.inner
  {
    var m := MatchAt(s);
    MatchPrints(s);
    if m.Match? then (Token(m.escaped, m.inner), m.length) else (Lit(s[0]), 1)
  }

  function Tokenize(s: string): seq<Segment>
    decreases |s|
  {
    if s == "" then [] else var h := Head(s); [h.0] + Tokenize(s[h.1..])
  }

  /** Cutting loses nothing. */
  lemma {:induction false} PrintTokenize(s: string)
    ensures Print(Tokenize(s)) == s
    decreases |s|
  {
    if s != "" {
      var h := Head(s);
      PrintTokenize(s[h.1..]);
      PrintStep(h.0, Tokenize(s[h.1..]), s, h.1);
    }
  }

  lemma PrintStep(seg: Segment, rest: seq<Segment>, s: string, width: nat)
    requires width <= |s| && PrintSegment(seg) == s[..width] && Print(rest) == s[width..]
    ensures Print([seg] + rest) == s
  {
  }

  /** Segments that cutting can produce: no literal starts a match in the printed text. */
  predicate Canonical(segs: seq<Segment>) {
    segs != [] ==>
      && Canonical(segs[1..])
      && (if segs[0].Token? then '}' !in segs[0].inner else MatchAt(Print(segs)).NoMatch?)
  }

  lemma {:induction false} TokenizeIsCanonical(s: string)
    ensures Canonical(Tokenize(s))
    decreases |s|
  {
    if s != "" {
      var h := Head(s);
      PrintTokenize(s);
      TokenizeIsCanonical(s[h.1..]);
      assert ([h.0] + Tokenize(s[h.1..]))[1..] == Tokenize(s[h.1..]);
    }
  }

  lemma {:induction false} TokenizePrint(segs: seq<Segment>)
    requires Canonical(segs)
    ensures Tokenize(Print(segs)) == segs
  {
    if segs != [] {
      HeadPrint(segs[0], Print(segs[1..]));
      TokenizePrint(segs[1..]);
      assert segs == [segs[0]] + segs[1..];
    }
  }

  lemma HeadPrint(seg: Segment, rest: string)
    requires if seg.Token? then '}' !in seg.inner else MatchAt([seg.c] + rest).NoMatch?
    ensures var p := PrintSegment(seg);
            Head(p + rest) == (seg, |p|) && (p + rest)[|p|..] == rest
  {
    if seg.Token? {
      PrintMatches(seg.escaped, seg.inner, rest);
    }
  }

  // ----- references ---------------------------------------------------------------------

  /** cutNamespace: "namespace.rest", cut at the first dot. */
  function CutNamespace(inner: string): Option<(string, string)> {
    var t := Trim(inner);
    var i := Index(t, '.');
    if i < 0 then None else Some((t[..i], t[i + 1..]))
  }

  function NamespaceOf(inner: string): Option<string> {
    var cut := CutNamespace(inner);
    if cut.Some? then Some(cut.value.0) else None
  }

  /** parseRef: "path | format". */
  function ParseRef(rest: string): (string, string) {
    var i := Index(rest, '|');
    if i >= 0 then (Trim(rest[..i]), Trim(rest[i + 1..])) else (Trim(rest), "")
  }

  predicate Trimmed(s: string) { s != "" && !IsSpace(s[0]) && !IsSpace(Last(s)) }

  /** A reference as authors write it reads back as its namespace, path and format. */
  lemma ReferenceReads(ns: string, path: string, format: string)
    requires Trimmed(path) && Trimmed(format) && '|' !in path
    requires Trimmed(ns) && '.' !in ns
    ensures CutNamespace(ns + "." + path) == Some((ns, path))
    ensures ParseRef(path) == (path, "")
    ensures CutNamespace(ns + "." + (path + " | " + format)) == Some((ns, path + " | " + format))
    ensures ParseRef(path + " | " + format) == (path, format)
  {
    DotCuts(ns, path);
    DotCuts(ns, path + " | " + format);
    BarCuts(path, format);
  }

  lemma BarCuts(path: string, format: string)
    requires Trimmed(path) && Trimmed(format) && '|' !in path
    ensures ParseRef(path + " | " + format) == (path, format)
  {
    var both := path + " | " + format;
    assert both[|path| + 1] == '|' && both[..|path| + 1] == path + " " && both[|path| + 2..] == " " + format;
    IndexIs(both, '|', |path| + 1);
    assert Init(path + " ") == path && (" " + format)[1..] == format;
    assert Trim(path + " ") == Trim(path) && Trim(" " + format) == Trim(format);
  }

  lemma DotCuts(ns: string, rest: string)
    requires Trimmed(ns) && '.' !in ns && Trimmed(rest)
    ensures CutNamespace(ns + "." + rest) == Some((ns, rest))
  {
    var all := ns + "." + rest;
    assert all[0] == ns[0] && Last(all) == Last(rest);
    assert all[..|ns|] == ns && all[|ns| + 1..] == rest;
    IndexIs(all, '.', |ns|);
  }

  predicate Blank(s: string) { forall c :: c in s ==> IsSpace(c) }

  lemma {:induction false} TrimAround(left: string, core: string, right: string)
    requires Blank(left) && Blank(right) && (core == "" || Trimmed(core))
    ensures Trim(left + core + right) == core
    decreases |left| + |right|
  {
    var s := left + core + right;
    if left != "" {
      assert s[1..] == left[1..] + core + right && s[0] == left[0];
      assert Blank(left[1..]);
      TrimAround(left[1..], core, right);
    } else if right != "" {
      assert Last(s) == Last(right) && Init(s) == left + core + Init(right);
      assert Blank(Init(right));
      TrimAround(left, core, Init(right));
      if core == "" {
        assert s == right;
        TrimBlank(s);
      }
    } else {
      assert s == core;
    }
  }

  lemma {:induction false} TrimBlank(s: string)
    requires Blank(s)
    ensures Trim(s) == ""
    decreases |s|
  {
    if s != "" {
      assert Blank(s[1..]);
      TrimBlank(s[1..]);
    }
  }

  /** White space around the path and around the format is no part of them. */
  lemma BlanksAreNoMatter(a: string, path: string, b: string, c: string, format: string, d: string)
    requires Blank(a) && Blank(b) && Blank(c) && Blank(d) && '|' !in a + path + b
    requires (path == "" || Trimmed(path)) && (format == "" || Trimmed(format))
    ensures ParseRef(a + path + b) == (path, "")
    ensures ParseRef((a + path + b) + "|" + (c + format + d)) == (path, format)
  {
    TrimAround(a, path, b);
    TrimAround(c, format, d);
    var before, all := a + path + b, (a + path + b) + "|" + (c + format + d);
    assert all[|before|] == '|' && all[..|before|] == before && all[|before| + 1..] == c + format + d;
    IndexIs(all, '|', |before|);
  }

  // ----- the single pass ----------------------------------------------------------------

  type Resolver = string -> Option<string>

  /** What one segment becomes in the pass over namespace ns. */
  function Piece(seg: Segment, ns: string, resolve: Resolver): Option<string> {
    if seg.Lit? || NamespaceOf(seg.inner) != Some(ns) then Some(PrintSegment(seg))
    else if seg.escaped then Some("${" + Trim(seg.inner) + "}")
    else resolve(CutNamespace(seg.inner).value.1)
  }

  /** The pieces of the template in order; a failing reference fails the whole. */
  function Pieces(segs: seq<Segment>, ns: string, resolve: Resolver): Option<string> {
    if segs == [] then Some("")
    else
      var head := Piece(segs[0], ns, resolve);
      var tail := Pieces(segs[1..], ns, resolve);
      if head.Some? && tail.Some? then Some(head.value + tail.value) else None
  }

  /** One turn of the scan: what is built so far, the piece at hand, what is left. */
  function Joined(built: string, rest: Option<string>): Option<string> {
    if rest.Some? then Some(built + rest.value) else None
  }

  lemma ScanStep(s: string, built: string, ns: string, resolve: Resolver)
    requires s != ""
    ensures var h := Head(s);
            var piece, rest := Piece(h.0, ns, resolve), Pieces(Tokenize(s[h.1..]), ns, resolve);
            Joined(built, Pieces(Tokenize(s), ns, resolve))
            == if piece.Some? then Joined(built + piece.value, rest) else None
  {
    var h := Head(s);
    var tail := Tokenize(s[h.1..]);
    assert Tokenize(s) == [h.0] + tail && ([h.0] + tail)[1..] == tail;
    var piece, rest := Piece(h.0, ns, resolve), Pieces(tail, ns, resolve);
    if piece.Some? && rest.Some? {
      assert built + (piece.value + rest.value) == (built + piece.value) + rest.value;
    }
  }

  lemma JoinedEnds(built: string, rest: Option<string>)
    ensures Joined("", rest) == rest && Joined(built, Some("")) == Some(built)
  {
    assert built + "" == built;
    assert rest.Some? ==> "" + rest.value == rest.value;
  }

  /** substitute: scans s once; what a reference resolved to is never scanned again. */
  method Substitute(s: string, ns: string, resolve: Resolver) returns (out: Option<string>)
    ensures out == Pieces(Tokenize(s), ns, resolve)
  {
    var rest, built, failed := s, "", false;
    ghost var all := Pieces(Tokenize(s), ns, resolve);
    JoinedEnds("", all);
    while rest != ""
      invariant all == if failed then None else Joined(built, Pieces(Tokenize(rest), ns, resolve))
      decreases |rest|
    {
      ScanStep(rest, built, ns, resolve);
      var h := Head(rest);
      var piece := Piece(h.0, ns, resolve);
      if piece.Some? {
        built := built + piece.value;
      } else {
        failed := true;
      }
      rest := rest[h.1..];
    }
    JoinedEnds(built, Some(""));
    out := if failed then None else Some(built);
  }

  /** The pass works segment by segment: a prefix of the template is substituted the same
      whatever follows it and whatever its references resolved to. */
  lemma {:induction false} PassIsCompositional(a: seq<Segment>, b: seq<Segment>, ns: string, resolve: Resolver)
    ensures var pa, pb := Pieces(a, ns, resolve), Pieces(b, ns, resolve);
            Pieces(a + b, ns, resolve) == if pa.Some? && pb.Some? then Some(pa.value + pb.value) else None
  {
    if a == [] {
      var pb := Pieces(b, ns, resolve);
      assert a + b == b;
      assert pb.Some? ==> "" + pb.value == pb.value;
    } else {
      assert (a + b)[1..] == a[1..] + b && (a + b)[0] == a[0];
      PassIsCompositional(a[1..], b, ns, resolve);
      var head, rest, pb := Piece(a[0], ns, resolve), Pieces(a[1..], ns, resolve), Pieces(b, ns, resolve);
      if head.Some? && rest.Some? && pb.Some? {
        assert head.value + (rest.value + pb.value) == (head.value + rest.value) + pb.value;
      }
    }
  }

  /** A value that looks like a reference is copied as it is: whatever stands around a
      reference, its value comes out verbatim between what the sides became. */
  lemma ValueIsVerbatim(a: seq<Segment>, inner: string, b: seq<Segment>, ns: string, resolve: Resolver)
    requires NamespaceOf(inner) == Some(ns)
    ensures var pa, pb := Pieces(a, ns, resolve), Pieces(b, ns, resolve);
            var value := resolve(CutNamespace(inner).value.1);
            Pieces(a + [Token(false, inner)] + b, ns, resolve)
            == if pa.Some? && value.Some? && pb.Some? then Some(pa.value + value.value + pb.value) else None
  {
    var token := [Token(false, inner)];
    PassIsCompositional(a, token, ns, resolve);
    PassIsCompositional(a + token, b, ns, resolve);
    OnePiece(token[0], ns, resolve);
  }

  lemma OnePiece(seg: Segment, ns: string, resolve: Resolver)
    ensures Pieces([seg], ns, resolve) == Piece(seg, ns, resolve)
  {
    var head := Piece(seg, ns, resolve);
    assert [seg][1..] == [];
    if head.Some? {
      assert head.value + "" == head.value;
    }
  }

  /** A token of another namespace, escaped or not, is left for the other phase as it stands. */
  lemma OtherTokensWait(a: seq<Segment>, seg: Segment, b: seq<Segment>, ns: string, resolve: Resolver)
    requires seg.Token? && NamespaceOf(seg.inner) != Some(ns)
    ensures var pa, pb := Pieces(a, ns, resolve), Pieces(b, ns, resolve);
            Pieces(a + [seg] + b, ns, resolve)
            == if pa.Some? && pb.Some?
               then Some(pa.value + ((if seg.escaped then "$${" else "${") + seg.inner + "}") + pb.value) else None
  {
    PassIsCompositional(a, [seg], ns, resolve);
    PassIsCompositional(a + [seg], b, ns, resolve);
    OnePiece(seg, ns, resolve);
  }

  // ----- phase one: the environment -------------------------------------------------------

  predicate HasPrefix(s: string, p: string) { |p| <= |s| && s[..|p|] == p }

  function EnvPiece(seg: Segment, env: map<string, string>): Option<string> {
    if seg.Lit? then Some([seg.c])
    else
      var trimmed := Trim(seg.inner);
      if !HasPrefix(trimmed, "env.") then Some(PrintSegment(seg))
      else if seg.escaped then Some("${" + trimmed + "}")
      else
        var name := Trim(trimmed[4..]);
        if name in env then Some(env[name]) else None
  }

  function ExpandSegments(segs: seq<Segment>, env: map<string, string>): Option<string> {
    if segs == [] then Some("")
    else
      var head := EnvPiece(segs[0], env);
      var tail := ExpandSegments(segs[1..], env);
      if head.Some? && tail.Some? then Some(head.value + tail.value) else None
  }

  /** expandEnv; None is an unset variable. */
  function ExpandEnv(s: string, env: map<string, string>): Option<string> { ExpandSegments(Tokenize(s), env) }

  function Lookup(env: map<string, string>): Resolver {
    (rest: string) => if Trim(rest) in env then Some(env[Trim(rest)]) else None
  }

  lemma EnvPrefixIsNamespace(inner: string)
    ensures HasPrefix(Trim(inner), "env.") <==> NamespaceOf(inner) == Some("env")
    ensures HasPrefix(Trim(inner), "env.") ==> CutNamespace(inner).value.1 == Trim(inner)[4..]
  {
    var t := Trim(inner);
    if HasPrefix(t, "env.") {
      assert t[3] == t[..4][3] && t[..3] == t[..4][..3] == "env";
      IndexIs(t, '.', 3);
    }
    if Index(t, '.') == 3 {
      assert t[..4] == t[..3] + [t[3]];
    }
  }

  /** The two phases share one syntax: expandEnv is the pass over namespace env. */
  lemma {:induction false} ExpandEnvIsPass(segs: seq<Segment>, env: map<string, string>)
    ensures ExpandSegments(segs, env) == Pieces(segs, "env", Lookup(env))
  {
    if segs != [] {
      ExpandEnvIsPass(segs[1..], env);
      if segs[0].Token? {
        EnvPrefixIsNamespace(segs[0].inner);
      }
    }
  }

  /** A variable comes out as it is set, and one that is not set fails the text. */
  lemma EnvironmentValue(a: seq<Segment>, inner: string, b: seq<Segment>, env: map<string, string>)
    requires NamespaceOf(inner) == Some("env")
    ensures var pa, pb := ExpandSegments(a, env), ExpandSegments(b, env);
            var name := Trim(CutNamespace(inner).value.1);
            ExpandSegments(a + [Token(false, inner)] + b, env)
            == if name in env && pa.Some? && pb.Some? then Some(pa.value + env[name] + pb.value) else None
  {
    ExpandEnvIsPass(a, env);
    ExpandEnvIsPass(b, env);
    ExpandEnvIsPass(a + [Token(false, inner)] + b, env);
    ValueIsVerbatim(a, inner, b, "env", Lookup(env));
  }

  // ----- escaping through both phases -----------------------------------------------------

  lemma {:induction false} TrimShape(s: string)
    ensures |Trim(s)| <= |s| && (|Trim(s)| == |s| ==> Trim(s) == s)
    ensures forall c :: c in Trim(s) ==> c in s
    ensures Trim(Trim(s)) == Trim(s)
    decreases |s|
  {
    if s != "" {
      if IsSpace(s[0]) {
        TrimShape(s[1..]);
      } else if IsSpace(Last(s)) {
        TrimShape(Init(s));
      }
    }
  }

  /** The text with a "$" put before each of its tokens, escaped ones included. */
  function WithDollars(segs: seq<Segment>): string {
    if segs == [] then ""
    else (if segs[0].Token? then "$" else "") + PrintSegment(segs[0]) + WithDollars(segs[1..])
  }

  function Escape(text: string): string { WithDollars(Tokenize(text)) }

  /** Tokens that decode to themselves: trimmed, and in a namespace that has a phase. */
  predicate Decodable(seg: Segment) {
    seg.Lit? || (Trim(seg.inner) == seg.inner && NamespaceOf(seg.inner) in {Some("env"), Some("alert")})
  }

  predicate AllDecodable(segs: seq<Segment>) { forall i :: 0 <= i < |segs| ==> Decodable(segs[i]) }

  /** How the escaped text is cut: the "$" makes an escape of a plain token and stands alone
      before an escape. */
  function EscapedOne(seg: Segment): seq<Segment> {
    if seg.Lit? then [seg] else if seg.escaped then [Lit('$'), seg] else [Token(true, seg.inner)]
  }

  function Escaped(segs: seq<Segment>): seq<Segment> {
    if segs == [] then [] else EscapedOne(segs[0]) + Escaped(segs[1..])
  }

  /** How it is cut after phase one. */
  function Once(seg: Segment): seq<Segment> {
    if seg.Token? && NamespaceOf(seg.inner) == Some("env") then [Token(seg.escaped, Trim(seg.inner))]
    else EscapedOne(seg)
  }

  function AllOnce(segs: seq<Segment>): seq<Segment> {
    if segs == [] then [] else Once(segs[0]) + AllOnce(segs[1..])
  }

  /** And what is printed after phase two. */
  function Twice(seg: Segment): string {
    if seg.Lit? then [seg.c]
    else if NamespaceOf(seg.inner) in {Some("env"), Some("alert")} then
      PrintSegment(Token(seg.escaped, Trim(seg.inner)))
    else "$" + PrintSegment(seg)
  }

  function AllTwice(segs: seq<Segment>): string {
    if segs == [] then "" else Twice(segs[0]) + AllTwice(segs[1..])
  }

  /** b has the literals of a, and tokens in the same places; an escape stays an escape, and
      may have a "$" before it. */
  predicate Expands(a: seq<Segment>, b: seq<Segment>) {
    if a == [] then b == []
    else if a[0].Lit? then b != [] && b[0] == a[0] && Expands(a[1..], b[1..])
    else if b != [] && b[0].Token? then
      '}' !in b[0].inner && (a[0].escaped ==> b[0].escaped) && Expands(a[1..], b[1..])
    else
      && a[0].escaped && |b| > 1 && b[0] == Lit('$') && b[1].Token? && b[1].escaped
      && '}' !in b[1].inner && Expands(a[1..], b[2..])
  }

  /** Whether a literal "$" starts a match in what is printed behind it. */
  predicate Starts(rest: string) {
    '}' in rest && ((|rest| > 0 && rest[0] == '{') || (|rest| > 1 && rest[0] == '$' && rest[1] == '{'))
  }

  lemma LitMatches(c: char, rest: string)
    ensures MatchAt([c] + rest).Match?
       <==> c == '$' && Starts(rest)
  {
    var s := [c] + rest;
    if |rest| > 0 {
      assert rest == [rest[0]] + rest[1..] && s[2..] == rest[1..];
      if |rest| > 1 {
        assert rest == [rest[0], rest[1]] + rest[2..] && s[3..] == rest[2..];
      }
    }
  }

  lemma {:induction false} ExpandsKeepsBraces(a: seq<Segment>, b: seq<Segment>)
    requires Expands(a, b)
    ensures '}' in Print(a) <==> '}' in Print(b)
  {
    if a != [] {
      if a[0].Lit? {
        ExpandsKeepsBraces(a[1..], b[1..]);
      } else {
        assert Last(PrintSegment(a[0])) == '}';
        if b[0].Token? {
          assert Last(PrintSegment(b[0])) == '}';
        } else {
          assert Last(PrintSegment(b[1])) == '}' && b[1..][0] == b[1] && '}' in Print(b[1..]);
        }
      }
    }
  }

  /** How printed segments start: a token with "$$" or "${". */
  lemma StartOf(segs: seq<Segment>)
    ensures Print(segs) == "" <==> segs == []
    ensures segs != [] && segs[0].Lit? ==> Print(segs)[0] == segs[0].c
    ensures segs != [] && segs[0].Token? ==>
              |Print(segs)| > 1 && Print(segs)[0] == '$' && Print(segs)[1] == if segs[0].escaped then '$' else '{'
  {
  }

  lemma {:induction false} NothingStarts(a: seq<Segment>, b: seq<Segment>)
    requires Expands(a, b) && !Starts(Print(a))
    ensures !Starts(Print(b))
  {
    StartOf(a);
    StartOf(b);
    ExpandsKeepsBraces(a, b);
    if a != [] && a[0].Lit? {
      StartOf(a[1..]);
      StartOf(b[1..]);
    } else if a != [] && b[0].Lit? {
      StartOf(b[1..]);
    } else if a != [] {
      assert Last(PrintSegment(a[0])) == '}';
    }
  }

  /** Putting in or taking out such escapes, and changing what stands between the braces,
      moves no token boundary. */
  lemma {:induction false} ExpandsKeepsBoundaries(a: seq<Segment>, b: seq<Segment>)
    requires Canonical(a) && Expands(a, b)
    ensures Canonical(b)
  {
    if a != [] {
      if a[0].Lit? {
        ExpandsKeepsBoundaries(a[1..], b[1..]);
        LitMatches(a[0].c, Print(a[1..]));
        LitMatches(a[0].c, Print(b[1..]));
        if a[0].c == '$' {
          NothingStarts(a[1..], b[1..]);
        }
      } else if b[0].Token? {
        ExpandsKeepsBoundaries(a[1..], b[1..]);
      } else {
        ExpandsKeepsBoundaries(a[1..], b[2..]);
        assert b[1..][1..] == b[2..] && b[1..][0] == b[1];
        StartOf(b[1..]);
        LitMatches('$', Print(b[1..]));
      }
    }
  }

  lemma {:induction false} EscapedExpands(segs: seq<Segment>)
    requires Canonical(segs)
    ensures Expands(segs, Escaped(segs)) && Expands(segs, AllOnce(segs))
  {
    if segs != [] {
      var rest, one, once := segs[1..], EscapedOne(segs[0]), Once(segs[0]);
      EscapedExpands(rest);
      assert (one + Escaped(rest))[|one|..] == Escaped(rest) && (once + AllOnce(rest))[|once|..] == AllOnce(rest);
      if segs[0].Token? {
        TrimShape(segs[0].inner);
      }
    }
  }

  lemma PrintCons(seg: Segment, rest: seq<Segment>)
    ensures Print([seg] + rest) == PrintSegment(seg) + Print(rest)
  {
    assert ([seg] + rest)[1..] == rest;
  }

  lemma PrintOneMore(one: seq<Segment>, rest: seq<Segment>)
    requires |one| == 1
    ensures Print(one + rest) == Print(one) + Print(rest)
  {
    PrintCons(one[0], rest);
    PrintOne(one[0]);
    assert one == [one[0]];
  }

  lemma Regroup(a: string, b: string, c: string)
    ensures a + (b + c) == (a + b) + c
  {
  }

  lemma PrintTwoMore(two: seq<Segment>, rest: seq<Segment>)
    requires |two| == 2
    ensures Print(two + rest) == Print(two) + Print(rest)
  {
    PrintOneMore(two[1..], rest);
    PrintCons(two[0], two[1..] + rest);
    PrintCons(two[0], two[1..]);
    assert two == [two[0]] + two[1..] && two + rest == [two[0]] + (two[1..] + rest);
    Regroup(PrintSegment(two[0]), Print(two[1..]), Print(rest));
  }

  lemma PrintMore(few: seq<Segment>, rest: seq<Segment>)
    requires 1 <= |few| <= 2
    ensures Print(few + rest) == Print(few) + Print(rest)
  {
    if |few| == 1 {
      PrintOneMore(few, rest);
    } else {
      PrintTwoMore(few, rest);
    }
  }

  lemma {:induction false} EscapedPrints(segs: seq<Segment>)
    ensures Print(Escaped(segs)) == WithDollars(segs)
  {
    if segs != [] {
      EscapedPrints(segs[1..]);
      PrintMore(EscapedOne(segs[0]), Escaped(segs[1..]));
      EscapedOnePrints(segs[0]);
    }
  }

  lemma EscapedOnePrints(seg: Segment)
    ensures Print(EscapedOne(seg)) == (if seg.Token? then "$" else "") + PrintSegment(seg)
  {
    if seg.Lit? {
      PrintOne(seg);
      assert "" + PrintSegment(seg) == PrintSegment(seg);
    } else if seg.escaped {
      PrintOne(seg);
      assert [Lit('$'), seg][1..] == [seg];
    } else {
      PrintOne(Token(true, seg.inner));
      DollarEscapes(seg.inner);
    }
  }

  lemma PrintOne(seg: Segment)
    ensures Print([seg]) == PrintSegment(seg)
  {
    assert [seg][1..] == [] && PrintSegment(seg) + "" == PrintSegment(seg);
  }

  /** The escaped text, and what phase one makes of it, are cut where the text was. */
  lemma EscapeSurvives(segs: seq<Segment>)
    requires Canonical(segs)
    ensures Tokenize(WithDollars(segs)) == Escaped(segs)
    ensures Tokenize(Print(AllOnce(segs))) == AllOnce(segs)
  {
    EscapedExpands(segs);
    ExpandsKeepsBoundaries(segs, Escaped(segs));
    ExpandsKeepsBoundaries(segs, AllOnce(segs));
    TokenizePrint(Escaped(segs));
    TokenizePrint(AllOnce(segs));
    EscapedPrints(segs);
  }

  lemma TwoPieces(a: Segment, b: Segment, ns: string, resolve: Resolver)
    requires Piece(a, ns, resolve).Some? && Piece(b, ns, resolve).Some?
    ensures Pieces([a, b], ns, resolve) == Some(Piece(a, ns, resolve).value + Piece(b, ns, resolve).value)
  {
    assert [a, b][1..] == [b];
    OnePiece(b, ns, resolve);
  }

  lemma DollarEscapes(inner: string)
    ensures "$" + PrintSegment(Token(false, inner)) == PrintSegment(Token(true, inner))
  {
    assert "$" + ("${" + inner + "}") == "$${" + inner + "}";
  }

  lemma EscapedPieces(seg: Segment, ns: string, resolve: Resolver)
    requires seg.Token?
    ensures Pieces(EscapedOne(seg), ns, resolve)
         == Some(if NamespaceOf(seg.inner) == Some(ns) then PrintSegment(Token(seg.escaped, Trim(seg.inner)))
                 else "$" + PrintSegment(seg))
  {
    if seg.escaped {
      TwoPieces(Lit('$'), seg, ns, resolve);
      DollarEscapes(Trim(seg.inner));
    } else {
      OnePiece(Token(true, seg.inner), ns, resolve);
      DollarEscapes(seg.inner);
    }
  }

  lemma EnvDecodesOne(seg: Segment, resolve: Resolver)
    ensures Pieces(EscapedOne(seg), "env", resolve) == Some(Print(Once(seg)))
  {
    if seg.Lit? {
      OnePiece(seg, "env", resolve);
      PrintOne(seg);
    } else {
      EscapedPieces(seg, "env", resolve);
      EscapedOnePrints(seg);
      PrintOne(Token(seg.escaped, Trim(seg.inner)));
    }
  }

  lemma {:induction false} EnvDecodes(segs: seq<Segment>, resolve: Resolver)
    ensures Pieces(Escaped(segs), "env", resolve) == Some(Print(AllOnce(segs)))
  {
    if segs != [] {
      EnvDecodes(segs[1..], resolve);
      EnvDecodesOne(segs[0], resolve);
      PassIsCompositional(EscapedOne(segs[0]), Escaped(segs[1..]), "env", resolve);
      PrintMore(Once(segs[0]), AllOnce(segs[1..]));
    }
  }

  lemma AlertDecodesOne(seg: Segment, resolve: Resolver)
    ensures Pieces(Once(seg), "alert", resolve) == Some(Twice(seg))
  {
    if seg.Lit? {
      OnePiece(seg, "alert", resolve);
    } else if NamespaceOf(seg.inner) == Some("env") {
      TrimShape(seg.inner);
      OnePiece(Token(seg.escaped, Trim(seg.inner)), "alert", resolve);
    } else {
      EscapedPieces(seg, "alert", resolve);
    }
  }

  lemma {:induction false} AlertDecodes(segs: seq<Segment>, resolve: Resolver)
    ensures Pieces(AllOnce(segs), "alert", resolve) == Some(AllTwice(segs))
  {
    if segs != [] {
      AlertDecodes(segs[1..], resolve);
      AlertDecodesOne(segs[0], resolve);
      PassIsCompositional(Once(segs[0]), AllOnce(segs[1..]), "alert", resolve);
    }
  }

  /** Where the text comes back: exactly when each token decodes to itself. */
  lemma {:induction false} DecodesToItself(segs: seq<Segment>)
    requires Canonical(segs)
    ensures AllTwice(segs) == Print(segs) <==> AllDecodable(segs)
  {
    if segs != [] {
      var rest := segs[1..];
      DecodesToItself(rest);
      assert forall i :: 0 <= i < |rest| ==> rest[i] == segs[i + 1];
      assert AllDecodable(segs) <==> Decodable(segs[0]) && AllDecodable(rest);
      SegmentComesBack(segs[0], AllTwice(rest), Print(rest));
    }
  }

  lemma SegmentComesBack(seg: Segment, x: string, y: string)
    requires seg.Token? ==> '}' !in seg.inner
    ensures Twice(seg) + x == PrintSegment(seg) + y <==> Decodable(seg) && x == y
  {
    var a, b := Twice(seg), PrintSegment(seg);
    if Decodable(seg) {
      assert a == b;
      assert (a + x)[|a|..] == x && (b + y)[|b|..] == y;
    } else {
      var opening := if seg.escaped then 3 else 2;
      if NamespaceOf(seg.inner) in {Some("env"), Some("alert")} {
        var t := Trim(seg.inner);
        TrimShape(seg.inner);
        assert (a + x)[opening + |t|] == '}';
        assert (b + y)[opening + |t|] == seg.inner[|t|];
      } else {
        assert (a + x)[opening - 1] == '$';
        assert (b + y)[opening - 1] == '{';
      }
    }
  }
}
