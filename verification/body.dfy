/** The compiled alert bodies of internal/alert/template.go: the payload a notice renders
    against, rendering, the overlay of a recovery body, and the startup check. */
module Bodies {
  import opened Domain
  import opened Template
  import opened Trees
  import Decision

  // ----- the payload ----------------------------------------------------------------------

  /** probe.CertInfo; a nil SANs slice is None. */
  datatype CertInfo = CertInfo(
    subject: string, cn: string, issuer: string, issuerCN: string, issuerOrg: string,
    signatureAlgorithm: string, sans: Option<seq<string>>, serial: string,
    notBefore: Instant, notAfter: Instant, earliestNotAfter: Instant)

  const NO_CERT := CertInfo("", "", "", "", "", "", None, "", ZERO_TIME, ZERO_TIME, ZERO_TIME)

  /** probe.Result, with the address already split into host and port. */
  datatype Report = Report(
    address: string, host: string, port: string, protocol: string,
    status: Status, severity: Severity, message: string, daysLeft: int,
    checkedAt: Instant, cert: Option<CertInfo>)

  function StatusText(s: Status): string {
    match s
    case StatusOK => "ok"
    case StatusExpiringSoon => "expiring_soon"
    case StatusExpired => "expired"
    case StatusInvalid => "invalid"
    case StatusWeakSignature => "weak_signature"
    case StatusTLSUnavailable => "tls_unavailable"
    case StatusUnreachable => "unreachable"
  }

  function SeverityText(s: Severity): string {
    match s
    case SeverityOK => "ok"
    case SeverityWarning => "warning"
    case SeverityCritical => "critical"
    case SeverityEmergency => "emergency"
    case SeverityOther(text) => text
  }

  /** The words that receivers see; no two statuses and no two rungs of the ladder share one. */
  lemma WordsOfTheLadder(a: Status, b: Status, x: Severity, y: Severity)
    ensures StatusText(a) == StatusText(b) ==> a == b
    ensures SeverityText(x) == SeverityText(y) ==> x == y || x.SeverityOther? || y.SeverityOther?
    ensures StatusText(StatusOK) == "ok" && StatusText(StatusExpired) == "expired"
    ensures StatusText(StatusExpiringSoon) == "expiring_soon" && StatusText(StatusInvalid) == "invalid"
    ensures StatusText(StatusWeakSignature) == "weak_signature" && StatusText(StatusUnreachable) == "unreachable"
    ensures StatusText(StatusTLSUnavailable) == "tls_unavailable"
    ensures SeverityText(SeverityOK) == "ok" && SeverityText(SeverityWarning) == "warning"
    ensures SeverityText(SeverityCritical) == "critical" && SeverityText(SeverityEmergency) == "emergency"
  {
  }

  /** One resolved field. Only a Time takes a format. */
  datatype Field =
    | Words(text: string)
    | Count(number: int)
    | Truth(flag: bool)
    | Names(names: Option<seq<string>>)
    | Time(t: Instant)

  datatype Payload = Payload(recovered: bool, fields: map<string, Field>)

  /** alertTimeFields, and the rest of alertFields. */
  const TIME_FIELDS: set<string> := {"CheckedAt", "Cert.NotBefore", "Cert.NotAfter", "Cert.EarliestNotAfter"}

  const PLAIN_FIELDS: set<string> := {
    "Host", "Address", "Port", "Protocol", "Status", "Severity", "Message", "Recovered",
    "DaysLeft", "Cert.Subject", "Cert.SubjectCN", "Cert.Issuer", "Cert.IssuerCN",
    "Cert.IssuerOrg", "Cert.SigAlg", "Cert.Serial", "Cert.SANs"}

  function CertOf(r: Report): CertInfo { if r.cert.Some? then r.cert.value else NO_CERT }

  function PlainFields(r: Report, recovered: bool): map<string, Field> {
    map[
      "Host" := Words(r.host),
      "Address" := Words(r.address),
      "Port" := Words(r.port),
      "Protocol" := Words(r.protocol),
      "Status" := Words(StatusText(r.status)),
      "Severity" := Words(SeverityText(r.severity)),
      "Message" := Words(r.message),
      "Recovered" := Truth(recovered),
      "DaysLeft" := Count(r.daysLeft),
      "Cert.Subject" := Words(CertOf(r).subject),
      "Cert.SubjectCN" := Words(CertOf(r).cn),
      "Cert.Issuer" := Words(CertOf(r).issuer),
      "Cert.IssuerCN" := Words(CertOf(r).issuerCN),
      "Cert.IssuerOrg" := Words(CertOf(r).issuerOrg),
      "Cert.SigAlg" := Words(CertOf(r).signatureAlgorithm),
      "Cert.Serial" := Words(CertOf(r).serial),
      "Cert.SANs" := Names(CertOf(r).sans)]
  }

  function TimeFields(r: Report): map<string, Field> {
    map[
      "CheckedAt" := Time(r.checkedAt),
      "Cert.NotBefore" := Time(CertOf(r).notBefore),
      "Cert.NotAfter" := Time(CertOf(r).notAfter),
      "Cert.EarliestNotAfter" := Time(CertOf(r).earliestNotAfter)]
  }

  function NewPayload(r: Report, recovered: bool): Payload {
    Payload(recovered, PlainFields(r, recovered) + TimeFields(r))
  }

  /** The allowlist that references are checked against is the domain a payload has, and
      the fields marked as times are the ones that hold one. */
  predicate Complete(p: Payload) {
    && p.fields.Keys == PLAIN_FIELDS + TIME_FIELDS
    && forall path :: path in p.fields ==> (p.fields[path].Time? <==> path in TIME_FIELDS)
  }

  lemma PlainFieldsAreListed(r: Report, recovered: bool)
    ensures PlainFields(r, recovered).Keys == PLAIN_FIELDS
  {
  }

  lemma PlainFieldsArePlain(r: Report, recovered: bool)
    ensures forall path :: path in PlainFields(r, recovered) ==> !PlainFields(r, recovered)[path].Time?
  {
  }

  lemma TimeFieldsAreTimes(r: Report)
    ensures TimeFields(r).Keys == TIME_FIELDS
    ensures forall path :: path in TIME_FIELDS ==> TimeFields(r)[path].Time?
  {
  }

  lemma PayloadIsComplete(r: Report, recovered: bool)
    ensures Complete(NewPayload(r, recovered))
  {
    PlainFieldsAreListed(r, recovered);
    PlainFieldsArePlain(r, recovered);
    TimeFieldsAreTimes(r);
  }

  /** What each name stands for in a report. */
  lemma AddressFields(r: Report, recovered: bool)
    ensures PlainFields(r, recovered)["Host"] == Words(r.host)
    ensures PlainFields(r, recovered)["Address"] == Words(r.address)
    ensures PlainFields(r, recovered)["Port"] == Words(r.port)
    ensures PlainFields(r, recovered)["Protocol"] == Words(r.protocol)
  {
  }

  lemma DiagnosisFields(r: Report, recovered: bool)
    ensures PlainFields(r, recovered)["Status"] == Words(StatusText(r.status))
    ensures PlainFields(r, recovered)["Severity"] == Words(SeverityText(r.severity))
    ensures PlainFields(r, recovered)["Message"] == Words(r.message)
    ensures PlainFields(r, recovered)["Recovered"] == Truth(recovered)
    ensures PlainFields(r, recovered)["DaysLeft"] == Count(r.daysLeft)
  {
  }

  lemma SubjectFields(r: Report, recovered: bool)
    requires r.cert.Some?
    ensures PlainFields(r, recovered)["Cert.Subject"] == Words(r.cert.value.subject)
    ensures PlainFields(r, recovered)["Cert.SubjectCN"] == Words(r.cert.value.cn)
    ensures PlainFields(r, recovered)["Cert.Serial"] == Words(r.cert.value.serial)
    ensures PlainFields(r, recovered)["Cert.SANs"] == Names(r.cert.value.sans)
  {
  }

  lemma IssuerFields(r: Report, recovered: bool)
    requires r.cert.Some?
    ensures PlainFields(r, recovered)["Cert.Issuer"] == Words(r.cert.value.issuer)
    ensures PlainFields(r, recovered)["Cert.IssuerCN"] == Words(r.cert.value.issuerCN)
    ensures PlainFields(r, recovered)["Cert.IssuerOrg"] == Words(r.cert.value.issuerOrg)
    ensures PlainFields(r, recovered)["Cert.SigAlg"] == Words(r.cert.value.signatureAlgorithm)
  {
  }

  lemma InstantFields(r: Report)
    ensures TimeFields(r)["CheckedAt"] == Time(r.checkedAt)
    ensures r.cert.Some? ==>
              && TimeFields(r)["Cert.NotBefore"] == Time(r.cert.value.notBefore)
              && TimeFields(r)["Cert.NotAfter"] == Time(r.cert.value.notAfter)
              && TimeFields(r)["Cert.EarliestNotAfter"] == Time(r.cert.value.earliestNotAfter)
  {
  }

  /** A payload has all of these. */
  lemma PayloadHas(r: Report, recovered: bool, path: string)
    ensures path in PLAIN_FIELDS ==> Get(NewPayload(r, recovered).fields, path) == Get(PlainFields(r, recovered), path)
    ensures path in TIME_FIELDS ==> Get(NewPayload(r, recovered).fields, path) == Get(TimeFields(r), path)
  {
    PlainFieldsAreListed(r, recovered);
    TimeFieldsAreTimes(r);
    PlainIsNoTime();
    OverlaidAt(PlainFields(r, recovered), TimeFields(r), path);
  }

  lemma PlainIsNoTime()
    ensures PLAIN_FIELDS !! TIME_FIELDS
  {
  }

  lemma OverlaidAt(a: map<string, Field>, b: map<string, Field>, path: string)
    ensures Get(a + b, path) == if path in b then Get(b, path) else Get(a, path)
  {
  }

  // ----- resolving one reference ------------------------------------------------------------

  /** How an instant prints under a format the program knows. */
  type Layout = (Instant, string) -> string

  const PRESETS: set<string> := {"datetime", "date", "time", "human", "rfc3339"}

  predicate Known(format: string) { format == "" || '%' in format || format in PRESETS }

  function FormatTime(t: Instant, format: string, show: Layout): Option<string> {
    if t == ZERO_TIME then Some("") else if Known(format) then Some(show(t, format)) else None
  }

  function Digits(n: nat): string {
    var d := [(n % 10) as char + '0'];
    if n < 10 then d else Digits(n / 10) + d
  }

  /** What a decimal numeral stands for. */
  function Reading(digits: string): int {
    if digits == "" then 0 else 10 * Reading(Init(digits)) + (Last(digits) as int - '0' as int)
  }

  lemma {:induction false} DigitsReadBack(n: nat)
    ensures Reading(Digits(n)) == n
    ensures Digits(n) != "" && '0' <= Digits(n)[0] <= '9' && (n > 0 ==> Digits(n)[0] != '0')
  {
    if n >= 10 {
      DigitsReadBack(n / 10);
      assert Init(Digits(n)) == Digits(n / 10);
    }
  }

  function Joined(names: seq<string>): string {
    if names == [] then "" else if |names| == 1 then names[0] else names[0] + ", " + Joined(names[1..])
  }

  /** The names in order with a separator between each two. */
  lemma {:induction false} JoinedConcat(a: seq<string>, b: seq<string>)
    requires a != [] && b != []
    ensures Joined(a + b) == Joined(a) + ", " + Joined(b)
    ensures Joined([]) == "" && Joined([a[0]]) == a[0]
  {
    if |a| > 1 {
      JoinedConcat(a[1..], b);
      assert (a + b)[1..] == a[1..] + b;
      assert a[0] + ", " + (Joined(a[1..]) + ", " + Joined(b)) == a[0] + ", " + Joined(a[1..]) + ", " + Joined(b);
    } else {
      assert (a + b)[1..] == b;
    }
  }

  /** toString. */
  function Spelled(f: Field): string
    requires !f.Time?
  {
    match f
    case Words(text) => text
    case Count(n) => if n < 0 then "-" + Digits(-n) else Digits(n)
    case Truth(flag) => if flag then "true" else "false"
    case Names(names) => if names.Some? then Joined(names.value) else ""
  }

  /** What a numeral with a sign stands for. */
  function SignedReading(text: string): int {
    if text != "" && text[0] == '-' then -Reading(text[1..]) else Reading(text)
  }

  lemma CountReadsBack(n: int)
    ensures SignedReading(Spelled(Count(n))) == n
  {
    if n < 0 {
      DigitsReadBack(-n);
      assert ("-" + Digits(-n))[1..] == Digits(-n);
    } else {
      DigitsReadBack(n);
    }
  }

  /** The JSON-native form; a nil slice is null. */
  function Native(f: Field): Value
    requires !f.Time?
  {
    match f
    case Words(text) => Text(text)
    case Count(n) => Number(n)
    case Truth(flag) => Flag(flag)
    case Names(names) =>
      if names.None? then Null else List(seq(|names.value|, i requires 0 <= i < |names.value| => Text(names.value[i])))
  }

  function ResolveString(p: Payload, path: string, format: string, show: Layout): Option<string> {
    if path !in p.fields then None
    else
      var f := p.fields[path];
      if f.Time? then FormatTime(f.t, format, show)
      else if format != "" then None
      else Some(Spelled(f))
  }

  function ResolveNative(p: Payload, path: string, format: string, show: Layout): Option<Value> {
    if path !in p.fields then None
    else
      var f := p.fields[path];
      if f.Time? then
        var text := FormatTime(f.t, format, show);
        if text.Some? then Some(Text(text.value)) else None
      else if format != "" then None
      else Some(Native(f))
  }

  function TextAt(p: Payload, rest: string, show: Layout): Option<string> {
    ResolveString(p, ParseRef(rest).0, ParseRef(rest).1, show)
  }

  function NativeAt(p: Payload, rest: string, show: Layout): Option<Value> {
    ResolveNative(p, ParseRef(rest).0, ParseRef(rest).1, show)
  }

  function TextOf(p: Payload, show: Layout): Resolver { (rest: string) => TextAt(p, rest, show) }

  function NativeOf(p: Payload, show: Layout): Leaf { (rest: string) => NativeAt(p, rest, show) }

  // ----- one string leaf ------------------------------------------------------------------

  /** A string that is exactly one unescaped reference into namespace alert; the rest of it. */
  function WholeAlertRef(s: string): Option<string> {
    var m := MatchAt(s);
    if m.Match? && m.length == |s| && !m.escaped && NamespaceOf(m.inner) == Some("alert")
    then Some(CutNamespace(m.inner).value.1)
    else None
  }

  function LeafText(s: string, text: Resolver): Option<Value> {
    var out := Pieces(Tokenize(s), "alert", text);
    if out.Some? then Some(Text(out.value)) else None
  }

  /** renderString: a whole reference keeps the field's JSON type. */
  function RenderString(s: string, text: Resolver, native: Leaf): Option<Value> {
    var whole := WholeAlertRef(s);
    if whole.Some? then native(whole.value) else LeafText(s, text)
  }

  /** The whole-scalar rule applies exactly to a string that is cut into one single token,
      unescaped and in namespace alert. */
  lemma WholeRefIsOneToken(s: string)
    ensures WholeAlertRef(s).Some?
       <==> |Tokenize(s)| == 1 && Tokenize(s)[0].Token? && !Tokenize(s)[0].escaped
            && NamespaceOf(Tokenize(s)[0].inner) == Some("alert")
  {
    if s != "" {
      var h := Head(s);
      assert Tokenize(s) == [h.0] + Tokenize(s[h.1..]);
      assert Tokenize(s[h.1..]) == [] <==> h.1 == |s|;
    }
  }

  method RenderLeaf(s: string, text: Resolver, native: Leaf) returns (out: Option<Value>)
    ensures out == RenderString(s, text, native)
  {
    var whole := WholeAlertRef(s);
    if whole.Some? {
      out := native(whole.value);
    } else {
      var built := Substitute(s, "alert", text);
      out := if built.Some? then Some(Text(built.value)) else None;
    }
  }

  function LeafOf(p: Payload, show: Layout): Leaf {
    (s: string) => RenderString(s, TextOf(p, show), NativeOf(p, show))
  }

  /** A time under a format the program knows, which is handed on; empty when it is unset. */
  ghost predicate ShowsTime(out: Option<string>, t: Instant, format: string, show: Layout) {
    if t == ZERO_TIME then out == Some("")
    else if format in {"", "datetime", "date", "time", "human", "rfc3339"} || '%' in format
    then out == Some(show(t, format))
    else out == None
  }

  /** What a whole reference becomes: the field in its own JSON type. */
  ghost predicate KeepsType(out: Option<Value>, f: Field, format: string, show: Layout) {
    match f
    case Time(t) => exists text :: ShowsTime(text, t, format, show)
                                   && out == if text.Some? then Some(Text(text.value)) else None
    case Count(n) => out == if format == "" then Some(Number(n)) else None
    case Truth(flag) => out == if format == "" then Some(Flag(flag)) else None
    case Words(text) => out == if format == "" then Some(Text(text)) else None
    case Names(None) => out == if format == "" then Some(Null) else None
    case Names(Some(names)) =>
      if format != "" then out == None
      else
        && out.Some? && out.value.List? && |out.value.items| == |names|
        && forall i :: 0 <= i < |names| ==> out.value.items[i] == Text(names[i])
  }

  lemma NativeKeepsType(p: Payload, path: string, format: string, show: Layout)
    ensures var out := ResolveNative(p, path, format, show);
            if path in p.fields then KeepsType(out, p.fields[path], format, show) else out == None
  {
    if path in p.fields && p.fields[path].Time? {
      assert ShowsTime(FormatTime(p.fields[path].t, format, show), p.fields[path].t, format, show);
    }
  }

  /** A string cut into one unescaped alert token keeps its field's JSON type. */
  lemma WholeRefKeepsType(p: Payload, show: Layout, s: string, inner: string)
    requires Tokenize(s) == [Token(false, inner)] && NamespaceOf(inner) == Some("alert")
    ensures var out := LeafOf(p, show)(s);
            var (path, format) := ParseRef(CutNamespace(inner).value.1);
            if path in p.fields then KeepsType(out, p.fields[path], format, show) else out == None
  {
    WholeRefIsOneToken(s);
    WholeRefInner(s, inner);
    var ref := ParseRef(CutNamespace(inner).value.1);
    NativeKeepsType(p, ref.0, ref.1, show);
  }

  lemma WholeRefInner(s: string, inner: string)
    requires Tokenize(s) == [Token(false, inner)] && NamespaceOf(inner) == Some("alert")
    ensures WholeAlertRef(s) == Some(CutNamespace(inner).value.1)
  {
    WholeRefIsOneToken(s);
    var h := Head(s);
    assert Tokenize(s) == [h.0] + Tokenize(s[h.1..]);
    assert h.0 == Tokenize(s)[0];
  }

  /** Every other string becomes the text of its pieces. */
  lemma OtherStringsAreText(p: Payload, show: Layout, s: string)
    requires |Tokenize(s)| != 1 || !Tokenize(s)[0].Token? || Tokenize(s)[0].escaped
             || NamespaceOf(Tokenize(s)[0].inner) != Some("alert")
    ensures var text := Pieces(Tokenize(s), "alert", TextOf(p, show));
            LeafOf(p, show)(s) == if text.Some? then Some(Text(text.value)) else None
  {
    WholeRefIsOneToken(s);
  }

  /** What a reference inside such a string becomes. */
  lemma InterpolatedField(p: Payload, path: string, format: string, show: Layout)
    requires path in p.fields
    ensures var out := ResolveString(p, path, format, show);
            match p.fields[path]
            case Time(t) => ShowsTime(out, t, format, show)
            case Words(text) => out == if format == "" then Some(text) else None
            case Truth(flag) => out == if format != "" then None else if flag then Some("true") else Some("false")
            case Names(None) => out == if format == "" then Some("") else None
            case Names(Some(names)) => out == if format == "" then Some(Joined(names)) else None
            case Count(n) => if format == "" then out.Some? && SignedReading(out.value) == n else out == None
  {
    if p.fields[path].Count? {
      CountReadsBack(p.fields[path].number);
    }
  }

  // ----- the reference check --------------------------------------------------------------

  /** checkStringRefs on one token. */
  predicate TokenValid(seg: Segment) {
    seg.Token? && !seg.escaped ==>
      var ns := NamespaceOf(seg.inner);
      || ns == Some("env")
      || (&& ns == Some("alert")
          && var ref := ParseRef(CutNamespace(seg.inner).value.1);
             ref.0 in PLAIN_FIELDS + TIME_FIELDS && (ref.1 != "" ==> ref.0 in TIME_FIELDS))
  }

  predicate TokensValid(segs: seq<Segment>) {
    segs != [] ==> TokenValid(segs[0]) && TokensValid(segs[1..])
  }

  predicate StringValid(s: string) { TokensValid(Tokenize(s)) }

  method CheckStringRefs(s: string) returns (ok: bool)
    ensures ok == StringValid(s)
  {
    var segs := Tokenize(s);
    while segs != []
      invariant TokensValid(segs) == StringValid(s)
    {
      if !TokenValid(segs[0]) {
        return false;
      }
      segs := segs[1..];
    }
    return true;
  }

  predicate RefsValid(v: Value) { AllLeaves(v, StringValid) }

  // ----- compiling a body at startup ------------------------------------------------------

  datatype Body = Body(fire: Tree, recovery: Option<Tree>)

  function Source(b: Body, recovered: bool): Value {
    Map(if recovered && b.recovery.Some? then b.recovery.value else b.fire)
  }

  /** Body.Render, up to the JSON bytes. */
  function Render(b: Body, p: Payload, show: Layout): Option<Value> {
    Printed(Source(b, p.recovered), LeafOf(p, show))
  }

  function Printed(v: Value, leaf: Leaf): Option<Value> {
    if Renders(v, leaf) && Marshals(Rendered(v, leaf)) then Some(Rendered(v, leaf)) else None
  }

  const SAMPLE := Report(
    "example.com:443", "example.com", "443", "tls", StatusExpiringSoon, SeverityWarning,
    "certificate expires in 10 day(s), with \"quotes\" and\na newline to exercise escaping",
    10, 1767253620 * SECOND,
    Some(CertInfo(
      "CN=example.com", "example.com", "CN=R13,O=Let's Encrypt,C=US", "R13", "Let's Encrypt",
      "SHA-256 with RSA encryption", Some(["example.com", "www.example.com"]), "123456789",
      1777276020 * SECOND, 1785052020 * SECOND, 1785052020 * SECOND)))

  datatype Parsed = Compiled(body: Body) | EmptyBody | BadReference | FailedSample

  function BodyOf(body: Tree, recoveryBody: Tree): Body {
    Body(body, if recoveryBody == map[] then None else Some(Merge(body, recoveryBody)))
  }

  /** The two sample renders. */
  predicate SampleRenders(b: Body, sample: Payload, show: Layout) {
    && Render(b, sample, show).Some?
    && (b.recovery.Some? ==> Render(b, sample.(recovered := true), show).Some?)
  }

  function SamplePayload(): Payload { NewPayload(SAMPLE, false) }

  /** ParseBody; the program passes SamplePayload(). */
  function ParseBody(body: Tree, recoveryBody: Tree, sample: Payload, show: Layout): Parsed {
    if body == map[] then EmptyBody
    else if !RefsValid(Map(body)) || !RefsValid(Map(recoveryBody)) then BadReference
    else if !SampleRenders(BodyOf(body, recoveryBody), sample, show) then FailedSample
    else Compiled(BodyOf(body, recoveryBody))
  }

  lemma {:induction false} TokensByIndex(segs: seq<Segment>)
    ensures TokensValid(segs) <==> forall i :: 0 <= i < |segs| ==> TokenValid(segs[i])
  {
    if segs != [] {
      TokensByIndex(segs[1..]);
      assert forall i :: 1 <= i < |segs| ==> segs[i] == segs[1..][i - 1];
    }
  }

  /** A string in the structure with a token that the check does not pass. */
  ghost predicate BadTokenAt(v: Value, path: seq<Step>) {
    && At(v, path).Some? && At(v, path).value.Text?
    && exists i :: 0 <= i < |Tokenize(At(v, path).value.text)| && !TokenValid(Tokenize(At(v, path).value.text)[i])
  }

  lemma RefsByPath(v: Value)
    ensures RefsValid(v) <==> forall path :: !BadTokenAt(v, path)
  {
    forall path | RefsValid(v)
      ensures !BadTokenAt(v, path)
    {
      if At(v, path).Some? && At(v, path).value.Text? {
        LeafOnPath(v, StringValid, path);
        TokensByIndex(Tokenize(At(v, path).value.text));
      }
    }
    if !RefsValid(v) {
      var path := BadLeaf(v, StringValid);
      TokensByIndex(Tokenize(At(v, path).value.text));
      assert BadTokenAt(v, path);
    }
  }

  /** Startup turns a body away for its references exactly if a string of it or of its recovery
      overlay, wherever it stands, has a token that is neither escaped nor valid. */
  lemma BadReferencesAreFound(body: Tree, recoveryBody: Tree, q: Payload, show: Layout)
    ensures ParseBody(body, recoveryBody, q, show) == EmptyBody <==> body == map[]
    ensures body != map[] ==>
              (ParseBody(body, recoveryBody, q, show) == BadReference
               <==> exists path :: BadTokenAt(Map(body), path) || BadTokenAt(Map(recoveryBody), path))
  {
    RefsByPath(Map(body));
    RefsByPath(Map(recoveryBody));
  }

  /** What a notice shows where a string stands: a recovery, the overlay's where it has
      something there, the body's where it has nothing; a problem, the body's. */
  lemma RenderedWhere(body: Tree, recoveryBody: Tree, p: Payload, show: Layout, path: seq<Step>, s: string)
    requires ThroughMaps(path) && Render(BodyOf(body, recoveryBody), p, show).Some?
    ensures var out := At(Render(BodyOf(body, recoveryBody), p, show).value, path);
            var base, over := At(Map(body), path), At(Map(recoveryBody), path);
            && (!p.recovered && base == Some(Text(s)) ==> out.Some? && out == LeafOf(p, show)(s))
            && (p.recovered && over == Some(Text(s)) ==> out.Some? && out == LeafOf(p, show)(s))
            && (p.recovered && !EndsMaps(Map(recoveryBody), path) && over == None && base == Some(Text(s)) ==>
                  out.Some? && out == LeafOf(p, show)(s))
  {
    var b := BodyOf(body, recoveryBody);
    var source := Source(b, p.recovered);
    TextEndsMaps(Map(recoveryBody), path);
    if p.recovered && recoveryBody != map[] {
      MergedAt(body, recoveryBody, path);
    } else if p.recovered {
      EmptyHasNothing(path);
    }
    if At(source, path) == Some(Text(s)) {
      RenderedAt(source, LeafOf(p, show), path);
    }
  }

  lemma {:induction false} TextEndsMaps(v: Value, path: seq<Step>)
    requires ThroughMaps(path)
    ensures At(v, path).Some? && At(v, path).value.Text? ==> EndsMaps(v, path)
    decreases |path|
  {
    if path != [] && v.Map? && path[0].key in v.entries {
      TextEndsMaps(v.entries[path[0].key], path[1..]);
    }
  }

  lemma EmptyHasNothing(path: seq<Step>)
    ensures At(Map(map[]), path).Some? ==> path == []
  {
  }

  // ----- what renders once renders always -------------------------------------------------

  /** A payload that has every field, each time set. */
  predicate Representative(q: Payload) {
    Complete(q) && forall path :: path in TIME_FIELDS ==> q.fields[path].t != ZERO_TIME
  }

  lemma SampleTimesAreSet()
    ensures forall path :: path in TimeFields(SAMPLE) ==>
              TimeFields(SAMPLE)[path].Time? && TimeFields(SAMPLE)[path].t != ZERO_TIME
  {
  }

  lemma SampleIsRepresentative(recovered: bool)
    ensures Representative(NewPayload(SAMPLE, recovered))
  {
    PayloadIsComplete(SAMPLE, recovered);
    TimeFieldsAreTimes(SAMPLE);
    SampleTimesAreSet();
  }

  lemma ReferenceCarriesOver(path: string, format: string, q: Payload, p: Payload, show: Layout)
    requires Representative(q) && Complete(p)
    ensures ResolveString(q, path, format, show).Some? ==> ResolveString(p, path, format, show).Some?
    ensures ResolveNative(q, path, format, show).Some? ==> ResolveNative(p, path, format, show).Some?
  {
  }

  /** The reference check passes exactly the unescaped tokens that belong to phase one, that
      resolve on a representative payload, or that only a time format unknown to the program
      keeps from it; the sample render finds the last kind. */
  lemma ReferenceCheckIsExact(inner: string, q: Payload, show: Layout)
    requires Representative(q)
    ensures TokenValid(Token(false, inner))
       <==> (|| NamespaceOf(inner) == Some("env")
             || (&& NamespaceOf(inner) == Some("alert")
                 && var ref := ParseRef(CutNamespace(inner).value.1);
                    || ResolveString(q, ref.0, ref.1, show).Some?
                    || (ref.0 in q.fields && q.fields[ref.0].Time? && !Known(ref.1))))
  {
  }

  const CERT_TEXTS: set<string> := {
    "Cert.Subject", "Cert.SubjectCN", "Cert.Issuer", "Cert.IssuerCN", "Cert.IssuerOrg", "Cert.SigAlg",
    "Cert.Serial", "Cert.SANs"}

  const CERT_TIMES: set<string> := {"Cert.NotBefore", "Cert.NotAfter", "Cert.EarliestNotAfter"}

  lemma CertTextsAreEmpty(r: Report, recovered: bool, path: string)
    requires r.cert.None? && path in CERT_TEXTS
    ensures path in PlainFields(r, recovered) && path !in TimeFields(r)
    ensures !PlainFields(r, recovered)[path].Time? && Spelled(PlainFields(r, recovered)[path]) == ""
  {
    TimeFieldsAreTimes(r);
  }

  lemma CertTimesAreUnset(r: Report, path: string)
    requires r.cert.None? && path in CERT_TIMES
    ensures path in TimeFields(r) && TimeFields(r)[path] == Time(ZERO_TIME)
  {
  }

  /** Without a certificate its fields render empty instead of failing, the times among them
      under any format at all. */
  lemma MissingCertRendersEmpty(r: Report, recovered: bool, path: string, format: string, show: Layout)
    requires r.cert.None?
    requires (path in CERT_TEXTS && format == "") || path in CERT_TIMES
    ensures ResolveString(NewPayload(r, recovered), path, format, show) == Some("")
  {
    if path in CERT_TIMES {
      CertTimesAreUnset(r, path);
    } else {
      CertTextsAreEmpty(r, recovered, path);
    }
  }

  lemma {:induction false} PassCarriesOver(segs: seq<Segment>, f: Resolver, g: Resolver)
    requires Covers(f, g) && Pieces(segs, "alert", f).Some?
    ensures Pieces(segs, "alert", g).Some?
  {
    if segs != [] {
      PassCarriesOver(segs[1..], f, g);
    }
  }

  lemma LeafCarriesOver(q: Payload, p: Payload, show: Layout)
    requires Representative(q) && Complete(p)
    ensures Covers(LeafOf(q, show), LeafOf(p, show))
  {
    var f, g := TextOf(q, show), TextOf(p, show);
    forall rest ensures f(rest).Some? ==> g(rest).Some? {
      ReferenceCarriesOver(ParseRef(rest).0, ParseRef(rest).1, q, p, show);
    }
    var m, n := NativeOf(q, show), NativeOf(p, show);
    forall rest ensures m(rest).Some? ==> n(rest).Some? {
      ReferenceCarriesOver(ParseRef(rest).0, ParseRef(rest).1, q, p, show);
    }
    forall s | RenderString(s, f, m).Some? ensures RenderString(s, g, n).Some? {
      StringCarriesOver(s, f, g, m, n);
    }
  }

  lemma StringCarriesOver(s: string, f: Resolver, g: Resolver, m: Leaf, n: Leaf)
    requires Covers(f, g) && Covers(m, n) && RenderString(s, f, m).Some?
    ensures RenderString(s, g, n).Some?
  {
    if WholeAlertRef(s).None? {
      PassCarriesOver(Tokenize(s), f, g);
    }
  }

  /** What a leaf becomes is never a map, and always encodes. */
  lemma LeavesAreScalars(p: Payload, show: Layout)
    ensures Flat(LeafOf(p, show)) && Encodable(LeafOf(p, show))
  {
    var native := NativeOf(p, show);
    assert forall rest :: native(rest).Some? ==> !native(rest).value.Map? && Marshals(native(rest).value);
  }

  /** What renders and encodes on a representative payload does so on every complete one. */
  lemma RenderCarriesOver(b: Body, q: Payload, p: Payload, show: Layout)
    requires Representative(q) && Complete(p) && Source(b, q.recovered) == Source(b, p.recovered)
    requires Render(b, q, show).Some?
    ensures Render(b, p, show).Some?
  {
    var v := Source(b, p.recovered);
    LeafCarriesOver(q, p, show);
    LeavesAreScalars(q, show);
    LeavesAreScalars(p, show);
    RenderingCarriesOver(v, LeafOf(q, show), LeafOf(p, show));
    EncodingIsInTheBody(v, LeafOf(q, show));
    EncodingIsInTheBody(v, LeafOf(p, show));
  }

  /** The two sample renders between them cover the two sources of a body. */
  lemma SampleCovers(b: Body, q: Payload, p: Payload, show: Layout)
    requires Representative(q) && !q.recovered && Complete(p) && SampleRenders(b, q, show)
    ensures Render(b, p, show).Some?
  {
    if p.recovered && b.recovery.Some? {
      RecoveryCovers(b, q, p, show);
    } else {
      RenderCarriesOver(b, q, p, show);
    }
  }

  lemma RecoveryCovers(b: Body, q: Payload, p: Payload, show: Layout)
    requires Representative(q) && Complete(p) && p.recovered
    requires Render(b, q.(recovered := true), show).Some?
    ensures Render(b, p, show).Some?
  {
    RenderCarriesOver(b, q.(recovered := true), p, show);
  }

  lemma CompiledBody(body: Tree, recoveryBody: Tree, q: Payload, show: Layout)
    requires ParseBody(body, recoveryBody, q, show).Compiled?
    ensures ParseBody(body, recoveryBody, q, show).body == BodyOf(body, recoveryBody)
    ensures SampleRenders(BodyOf(body, recoveryBody), q, show)
  {
  }

  /** A body accepted at startup renders on every payload there can be. */
  lemma AcceptedBodyRenders(body: Tree, recoveryBody: Tree, q: Payload, p: Payload, show: Layout)
    requires Representative(q) && !q.recovered && Complete(p)
    requires ParseBody(body, recoveryBody, q, show).Compiled?
    ensures Render(ParseBody(body, recoveryBody, q, show).body, p, show).Some?
  {
    CompiledBody(body, recoveryBody, q, show);
    SampleCovers(BodyOf(body, recoveryBody), q, p, show);
  }

  /** A body without references is accepted, whatever the sample. */
  lemma ConstantBodyIsAccepted(key: string, number: int, q: Payload, show: Layout)
    ensures ParseBody(map[key := Number(number)], map[], q, show).Compiled?
  {
    var body: Tree := map[key := Number(number)];
    assert key in body;
    assert RefsValid(Map(body)) && Renders(Map(body), LeafOf(q, show));
    assert Rendered(Map(body), LeafOf(q, show)).entries.Keys == body.Keys;
    assert Marshals(Rendered(Map(body), LeafOf(q, show)));
  }

  ghost predicate RendersEveryReport(b: Body, show: Layout) {
    forall r, recovered :: Render(b, NewPayload(r, recovered), show).Some?
  }

  lemma SampleCoversReport(b: Body, show: Layout, r: Report, recovered: bool)
    requires SampleRenders(b, SamplePayload(), show)
    ensures Render(b, NewPayload(r, recovered), show).Some?
  {
    SampleIsRepresentative(false);
    PayloadIsComplete(r, recovered);
    SampleCovers(b, SamplePayload(), NewPayload(r, recovered), show);
  }

  lemma ReportsCoverSample(b: Body, show: Layout)
    requires RendersEveryReport(b, show)
    ensures SampleRenders(b, SamplePayload(), show)
  {
    SampleIsRepresentative(true);
    SampleIsRepresentative(false);
    assert Render(b, NewPayload(SAMPLE, false), show).Some?;
    RenderCarriesOver(b, NewPayload(SAMPLE, true), SamplePayload().(recovered := true), show);
  }

  /** The sample render is exact: among bodies whose references are valid it turns away
      only those that some report would break. */
  lemma SampleRenderIsExact(body: Tree, recoveryBody: Tree, show: Layout)
    requires body != map[] && RefsValid(Map(body)) && RefsValid(Map(recoveryBody))
    ensures ParseBody(body, recoveryBody, SamplePayload(), show).Compiled?
       <==> RendersEveryReport(BodyOf(body, recoveryBody), show)
  {
    var b := BodyOf(body, recoveryBody);
    if SampleRenders(b, SamplePayload(), show) {
      forall r, recovered ensures Render(b, NewPayload(r, recovered), show).Some? {
        SampleCoversReport(b, show, r, recovered);
      }
    } else if RendersEveryReport(b, show) {
      ReportsCoverSample(b, show);
    }
  }

  /** Rendering the merged recovery body is merging the two rendered bodies. */
  lemma RecoveryRendersAsOverlay(body: Tree, recoveryBody: Tree, p: Payload, show: Layout)
    requires Renders(Map(body), LeafOf(p, show)) && Renders(Map(recoveryBody), LeafOf(p, show))
    ensures Renders(Map(Merge(body, recoveryBody)), LeafOf(p, show))
    ensures RenderedTree(Merge(body, recoveryBody), LeafOf(p, show))
         == Merge(RenderedTree(body, LeafOf(p, show)), RenderedTree(recoveryBody, LeafOf(p, show)))
  {
    LeavesAreScalars(p, show);
    RenderingCommutesWithMerge(body, recoveryBody, LeafOf(p, show));
  }

  // ----- the bodies the manager renders ---------------------------------------------------

  /** One channel's notice: the report on the channel's view. */
  function NoticePayload(r: Report, notice: Decision.Notice): Payload {
    NewPayload(r.(status := notice.view.status, severity := notice.view.severity), notice.recovered)
  }

  lemma ViewFields(r: Report, recovered: bool)
    ensures var fields := NewPayload(r, recovered).fields;
            && "Status" in fields && fields["Status"] == Words(StatusText(r.status))
            && "Severity" in fields && fields["Severity"] == Words(SeverityText(r.severity))
            && "Recovered" in fields && fields["Recovered"] == Truth(recovered)
  {
    DiagnosisFields(r, recovered);
    PlainFieldsAreListed(r, recovered);
    PayloadHas(r, recovered, "Status");
    PayloadHas(r, recovered, "Severity");
    PayloadHas(r, recovered, "Recovered");
  }

  /** A channel's body shows the channel's view and nothing of the report's own status and
      severity, so it never shows a severity below the channel's floor. */
  lemma BodyShowsOnlyTheView(r: Report, notice: Decision.Notice, status: Status, severity: Severity)
    ensures NoticePayload(r.(status := status, severity := severity), notice) == NoticePayload(r, notice)
    ensures var fields := NoticePayload(r, notice).fields;
            && "Status" in fields && fields["Status"] == Words(StatusText(notice.view.status))
            && "Severity" in fields && fields["Severity"] == Words(SeverityText(notice.view.severity))
            && "Recovered" in fields && fields["Recovered"] == Truth(notice.recovered)
  {
    ViewFields(r.(status := notice.view.status, severity := notice.view.severity), notice.recovered);
  }

  /** And everything else of it as it is. */
  lemma NoticeKeepsTheReport(r: Report, notice: Decision.Notice, path: string)
    requires path !in {"Status", "Severity"}
    ensures Get(NoticePayload(r, notice).fields, path) == Get(NewPayload(r, notice.recovered).fields, path)
  {
  }

  function RenderNotice(bodies: map<Name, Body>, r: Report, show: Layout, name: Name, notice: Decision.Notice)
    : Option<Value>
  {
    if name in bodies then Render(bodies[name], NoticePayload(r, notice), show) else None
  }

  function RendererOf(bodies: map<Name, Body>, r: Report, show: Layout): Decision.Renderer {
    (name: Name, notice: Decision.Notice) => RenderNotice(bodies, r, show, name, notice)
  }

  /** What the manager's renderer makes of a body's string. */
  lemma RendererShowsTheNotice(
    bodies: map<Name, Body>, r: Report, show: Layout, name: Name, notice: Decision.Notice, path: seq<Step>, s: string)
    requires name in bodies && RendererOf(bodies, r, show)(name, notice).Some?
    requires At(Source(bodies[name], notice.recovered), path) == Some(Text(s))
    ensures At(RendererOf(bodies, r, show)(name, notice).value, path) == LeafOf(NoticePayload(r, notice), show)(s)
  {
    RenderedAt(Source(bodies[name], notice.recovered), LeafOf(NoticePayload(r, notice), show), path);
  }

  /** The body came out of the startup check. */
  ghost predicate Accepted(b: Body, show: Layout) {
    exists body, recoveryBody :: ParseBody(body, recoveryBody, SamplePayload(), show) == Compiled(b)
  }

  lemma AcceptedRenders(b: Body, p: Payload, show: Layout)
    requires Accepted(b, show) && Complete(p)
    ensures Render(b, p, show).Some?
  {
    var body, recoveryBody :| ParseBody(body, recoveryBody, SamplePayload(), show) == Compiled(b);
    SampleIsRepresentative(false);
    AcceptedBodyRenders(body, recoveryBody, SamplePayload(), p, show);
  }

  lemma NoticeIsComplete(r: Report, notice: Decision.Notice)
    ensures Complete(NoticePayload(r, notice))
  {
    PayloadIsComplete(r.(status := notice.view.status, severity := notice.view.severity), notice.recovered);
  }

  lemma NoticeRenders(bodies: map<Name, Body>, r: Report, show: Layout, name: Name, notice: Decision.Notice)
    requires name in bodies && Accepted(bodies[name], show)
    ensures RenderNotice(bodies, r, show, name, notice).Some?
  {
    NoticeIsComplete(r, notice);
    AcceptedRenders(bodies[name], NoticePayload(r, notice), show);
  }

  /** So no notice is ever dropped for a failed render. */
  lemma NoNoticeFailsToRender(bodies: map<Name, Body>, r: Report, show: Layout, name: Name, notice: Decision.Notice)
    requires name in bodies && Accepted(bodies[name], show)
    ensures RendererOf(bodies, r, show)(name, notice).Some?
  {
    NoticeRenders(bodies, r, show, name, notice);
  }

  // ----- the escape round trip ------------------------------------------------------------

  /** Any text, with a "$" put before each of its tokens, passes phase one, the reference
      check and phase two whatever the environment and the fields hold; and it comes back
      unchanged exactly when each of its tokens is trimmed and in one of the two namespaces. */
  lemma EscapeRoundTrip(text: string, env: map<string, string>, resolve: Resolver, native: Leaf)
    ensures var once := ExpandEnv(Escape(text), env);
            && once.Some? && StringValid(once.value)
            && RenderString(once.value, resolve, native).Some?
            && (RenderString(once.value, resolve, native) == Some(Text(text)) <==> AllDecodable(Tokenize(text)))
  {
    var segs := Tokenize(text);
    TokenizeIsCanonical(text);
    PrintTokenize(text);
    EscapeSurvives(segs);
    ExpandEnvIsPass(Escaped(segs), env);
    EnvDecodes(segs, Lookup(env));
    OnceRenders(segs, resolve, native);
    DecodesToItself(segs);
  }

  lemma OnceRenders(segs: seq<Segment>, resolve: Resolver, native: Leaf)
    requires Tokenize(Print(AllOnce(segs))) == AllOnce(segs)
    ensures StringValid(Print(AllOnce(segs)))
    ensures RenderString(Print(AllOnce(segs)), resolve, native) == Some(Text(AllTwice(segs)))
  {
    OnceIsValid(segs);
    OnceIsNoWholeRef(segs);
    AlertDecodes(segs, resolve);
  }

  lemma {:induction false} OnceIsValid(segs: seq<Segment>)
    ensures TokensValid(AllOnce(segs))
  {
    if segs != [] {
      OnceIsValid(segs[1..]);
      OneIsValid(segs[0], AllOnce(segs[1..]));
    }
  }

  lemma OneIsValid(seg: Segment, rest: seq<Segment>)
    requires TokensValid(rest)
    ensures TokensValid(Once(seg) + rest)
  {
    var once := Once(seg);
    if seg.Token? {
      TrimShape(seg.inner);
    }
    assert (once + rest)[|once|..] == rest;
    if |once| == 2 {
      assert (once + rest)[1..][1..] == rest;
    }
  }

  lemma OnceIsNoWholeRef(segs: seq<Segment>)
    requires Tokenize(Print(AllOnce(segs))) == AllOnce(segs)
    ensures WholeAlertRef(Print(AllOnce(segs))).None?
  {
    WholeRefIsOneToken(Print(AllOnce(segs)));
    if segs != [] {
      assert AllOnce(segs)[0] == Once(segs[0])[0];
      if segs[0].Token? {
        TrimShape(segs[0].inner);
      }
    }
  }
}
