/** The vocabulary shared by every part of the alerting pipeline: probe outcomes,
    notices, instants and the per-target settings that steer a decision. */
module Domain {

  datatype Option<+T> = None | Some(value: T)

  /** Classification of one check (internal/probe/result.go). */
  datatype Status =
    | StatusOK
    | StatusExpiringSoon
    | StatusExpired
    | StatusInvalid
    | StatusWeakSignature
    | StatusTLSUnavailable
    | StatusUnreachable

  /** The escalation ladder. The source's severities are strings, so a value outside
      the ladder is representable there and is kept here as SeverityOther. */
  datatype Severity =
    | SeverityOK
    | SeverityWarning
    | SeverityCritical
    | SeverityEmergency
    | SeverityOther(text: string)

  /** What a target looks like: a probe outcome, a confirmed state, or the view of it
      that one channel gets. */
  datatype Observation = Observation(status: Status, severity: Severity)

  const HEALTHY := Observation(StatusOK, SeverityOK)

  type Name = string
  type Key = string

  /** One (notifier, target) pair: the unit of FIFO delivery. */
  datatype Channel = Channel(notifier: Name, key: Key)

  /** A structured body: what YAML decodes to and what rendering produces. Other is a leaf
      that is neither string, number, bool, null nor a container; encodes says whether
      json.Marshal accepts it (a NaN, for one, is refused). */
  datatype Value =
    | Text(text: string)
    | Number(number: int)
    | Flag(flag: bool)
    | Null
    | List(items: seq<Value>)
    | Map(entries: map<string, Value>)
    | Other(encodes: bool)

  // Instants and durations are nanoseconds; instants count from the unix epoch.
  type Instant = int
  type Duration = int

  const SECOND: Duration := 1_000_000_000
  const MAX_DURATION: Duration := 0x7fff_ffff_ffff_ffff
  const MIN_DURATION: Duration := -0x8000_0000_0000_0000
  /** Go's zero time: January 1, year 1, UTC. */
  const ZERO_TIME: Instant := -62135596800 * SECOND

  /** time.Time.Sub: the difference saturates at the ends of the Duration range. */
  function Sub(a: Instant, b: Instant): (d: Duration) {
    var diff := a - b;
    if diff > MAX_DURATION then MAX_DURATION else if diff < MIN_DURATION then MIN_DURATION else diff
  }

  function Min(a: int, b: int): int { if a < b then a else b }

  function Get<K, V>(m: map<K, V>, k: K): Option<V> { if k in m then Some(m[k]) else None }

  function Last<T>(s: seq<T>): T
    requires s != []
  {
    s[|s| - 1]
  }

  function Init<T>(s: seq<T>): seq<T>
    requires s != []
  {
    s[..|s| - 1]
  }

  function Reverse<T>(s: seq<T>): (r: seq<T>)
    ensures |r| == |s|
    ensures forall i :: 0 <= i < |s| ==> r[i] == s[|s| - 1 - i]
  {
    seq(|s|, i requires 0 <= i < |s| => s[|s| - 1 - i])
  }

  /** The last k elements, or all of them when there are fewer. */
  function Suffix<T>(s: seq<T>, k: int): seq<T> {
    if k <= 0 then [] else if |s| <= k then s else s[|s| - k..]
  }
}
