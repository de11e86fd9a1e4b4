/** Vocabulary shared by the models: optional values, times, and the fates
    an external call can meet. */
module Common {

  datatype Option<+T> = None | Some(value: T)

  /** Nanoseconds since Go's zero time, so that 0 is the time Go calls zero:
      an unset watermark reads back as exactly that value. */
  type Time = int

  const UNSET: Time := 0
  const MILLISECOND: Time := 1_000_000
  const SECOND: Time := 1_000_000_000

  /** The store writes times with three decimals, dropping the rest. */
  function Stored(t: Time): (s: Time)
    ensures s <= t < s + 1_000_000 && s % 1_000_000 == 0
  {
    t - t % MILLISECOND
  }

  /** What became of a read: it answered, it failed, or the process died. */
  datatype Read = Answered | ReadFailed | DiedReading

  /** What became of a write. A write can land although its reply is lost,
      and the process can die on either side of it. */
  datatype Write = Landed | Refused | LandedReplyLost | DiedBefore | DiedAfter {
    predicate Lands() { Landed? || LandedReplyLost? || DiedAfter? }
    predicate Died() { DiedBefore? || DiedAfter? }
  }

  function Reversed<T>(s: seq<T>): (r: seq<T>)
    ensures |r| == |s|
    ensures forall i :: 0 <= i < |s| ==> r[i] == s[|s| - 1 - i]
  {
    seq(|s|, i requires 0 <= i < |s| => s[|s| - 1 - i])
  }

  function Last<T>(s: seq<T>): T
    requires s != []
  {
    s[|s| - 1]
  }

  function Front<T>(s: seq<T>): seq<T>
    requires s != []
  {
    s[..|s| - 1]
  }

  predicate Distinct<T(==)>(s: seq<T>) {
    forall i, j :: 0 <= i < j < |s| ==> s[i] != s[j]
  }

  function Elements<T>(s: seq<T>): set<T> {
    set x | x in s
  }

  lemma ConcatAssociates<T>(a: seq<T>, b: seq<T>, c: seq<T>)
    ensures (a + b) + c == a + (b + c)
  {
  }
}
