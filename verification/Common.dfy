/** Values shared by every component of the model. */
module Common {

  type byte = b: int | 0 <= b < 256

  type bytes = seq<byte>

  datatype Option<+T> = None | Some(value: T)

  /** The bytes of an ASCII text. */
  function Ascii(s: string): (b: bytes)
    requires forall i :: 0 <= i < |s| ==> s[i] < '\U{80}'
    ensures |b| == |s| && forall i :: 0 <= i < |s| ==> b[i] == s[i] as int
  {
    seq(|s|, i requires 0 <= i < |s| && (forall j :: 0 <= j < |s| ==> s[j] < '\U{80}') => s[i] as int)
  }

  function Min(a: int, b: int): int { if a < b then a else b }

  /** `max(1, n)` */
  function AtLeastOne(n: int): (r: nat)
    ensures r >= 1 && r >= n && (r == 1 || r == n)
  {
    if n < 1 then 1 else n
  }

  /** The requests in flight after one of them went on, or ended. */
  function Onward<F>(flights: map<nat, F>, r: nat, f: Option<F>): map<nat, F> {
    if f.Some? then flights[r := f.value] else flights - {r}
  }
}
