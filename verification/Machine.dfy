/** The machine integers of the original and the saturating operations it uses on them. */
module Machine {
  const U32_MAX: int := 0xFFFF_FFFF

  type U32 = x: int | 0 <= x <= U32_MAX witness 0

  datatype Option<+T> = None | Some(value: T) {
    function GetOr(default: T): T {
      if Some? then value else default
    }
  }

  /** `u32::saturating_add` */
  function SatAdd(a: U32, b: int): (r: U32)
    requires 0 <= b
  {
    if a + b > U32_MAX then U32_MAX else a + b
  }

  /** `u32::saturating_sub` */
  function SatSub(a: U32, b: int): (r: U32)
    requires 0 <= b
  {
    if a < b then 0 else a - b
  }

  function Min(a: int, b: int): int {
    if a <= b then a else b
  }

  function Max(a: int, b: int): int {
    if a >= b then a else b
  }

  lemma SomeElement<T>(s: set<T>) returns (x: T)
    requires s != {}
    ensures x in s
  {
    x :| x in s;
  }

  /** A subset has no more elements, and fewer when it is a proper one. */
  lemma SubsetSize<T>(a: set<T>, b: set<T>)
    requires a <= b
    ensures |a| <= |b| && (a != b ==> |a| < |b|)
  {
    assert b == a + (b - a);
  }
}
