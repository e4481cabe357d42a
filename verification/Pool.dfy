/** The buffer pool: small buffers are cut from a shared slab, large ones stand alone. */
module Pool {
  import opened Bits

  /** `slice.call(base, from, to)`: a window on a buffer, not a copy. */
  datatype View = View(base: array<byte>, from: nat, to: nat)

  predicate Apart(v: View, w: View) {
    v.base != w.base || v.to <= w.from || w.to <= v.from
  }

  lemma OrOdd(x: nat, m: nat)
    ensures Or(x, 2 * m + 1) == 2 * Or(x / 2, m) + 1
  {
    hide Or;
    WithNone(2 * m + 1);
    WithNone(m);
    if x > 0 {
      OrStep(x, 2 * m + 1);
      assert (2 * m + 1) / 2 == m && (2 * m + 1) % 2 == 1;
    }
  }

  lemma {:induction false} OrOnes(x: nat, k: nat)
    ensures Or(x, Pow2(k) - 1) == x - x % Pow2(k) + Pow2(k) - 1
  {
    hide Or;
    if k == 0 {
      WithNone(x);
    } else {
      var p := Pow2(k - 1);
      assert Pow2(k) == 2 * p;
      hide Pow2;
      OrOnes(x / 2, k - 1);
      OrOdd(x, p - 1);
      ModHalf(x, p);
      HalfMore(x, p, Or(x / 2, p - 1));
    }
  }

  lemma HalfMore(x: nat, p: nat, half: nat)
    requires p >= 1 && half == x / 2 - x / 2 % p + p - 1 && x % (2 * p) == x % 2 + 2 * (x / 2 % p)
    ensures 2 * half + 1 == x - x % (2 * p) + 2 * p - 1
  {
    assert x == 2 * (x / 2) + x % 2;
  }

  lemma LowThree(x: nat)
    ensures And(x, 7) == x % 8 && Or(x, 7) == x - x % 8 + 7
  {
    assert Pow2(3) == 8;
    hide And, Or, Pow2;
    AndOnes(x, 3);
    OrOnes(x, 3);
  }

  lemma RoundUp(x: nat)
    ensures var y := if And(x, 7) != 0 then Or(x, 7) + 1 else x; x <= y && y % 8 == 0 && y == (x + 7) / 8 * 8
  {
    hide And, Or;
    LowThree(x);
  }

  class Allocator {
    const SIZE: nat
    const MAX: nat
    var slab: array?<byte>
    var offset: nat

    ghost var given: seq<View>      // every buffer returned so far

    /** Everything in the slab from the offset on is free, and no two buffers overlap. */
    ghost predicate Valid()
      reads this
    {
      && MAX == SIZE / 2
      && (slab == null ==> offset == SIZE)
      && (slab != null ==> slab.Length == SIZE && offset % 8 == 0)
      && (forall v :: v in given ==> v.from <= v.to <= v.base.Length && v.from % 8 == 0)
      && (forall v :: v in given && v.base == slab ==> v.to <= offset)
      && (forall i, j :: 0 <= i < j < |given| ==> Apart(given[i], given[j]))
    }

    constructor (size: nat)
      requires size < 0x8000_0000
      ensures Valid() && given == [] && SIZE == if size == 0 then 8192 else size
    {
      SIZE := if size == 0 then 8192 else size;
      MAX := (if size == 0 then 8192 else size) / 2;
      slab := null;
      offset := if size == 0 then 8192 else size;
      given := [];
    }

    /** A buffer of exactly the requested size that overlaps none returned before. */
    method Alloc(size: nat) returns (v: View)
      requires Valid()
      modifies this
      ensures Valid() && given == old(given) + [v]
      ensures v.to - v.from == size && v.from % 8 == 0 && v.to <= v.base.Length
      ensures forall w :: w in old(given) ==> Apart(w, v)
      ensures if 1 <= size <= MAX then
                && v.base == slab && offset == (v.to + 7) / 8 * 8
                && if old(offset) + size > SIZE then fresh(slab) && v.from == 0 else slab == old(slab) && v.from == old(offset)
              else fresh(v.base) && slab == old(slab) && offset == old(offset)
    {
      hide And, Or;
      if size < 1 || size > MAX {
        var alone := new byte[size];
        v := View(alone, 0, size);
      } else {
        if offset + size > SIZE {
          slab := new byte[SIZE];
          offset := 0;
        }
        v := View(slab, offset, offset + size);
        offset := offset + size;
        RoundUp(offset);
        if And(offset, 7) != 0 {
          offset := Or(offset, 7) + 1;
        }
      }
      given := given + [v];
    }
  }

  /** Any sequence of calls on a new pool of any slab size. */
  method AllocAll(slabSize: nat, sizes: seq<nat>) returns (views: seq<View>)
    requires slabSize < 0x8000_0000
    ensures |views| == |sizes|
    ensures forall i :: 0 <= i < |views| ==>
      views[i].from % 8 == 0 && views[i].to - views[i].from == sizes[i] && views[i].to <= views[i].base.Length
    ensures forall i, j :: 0 <= i < j < |views| ==> Apart(views[i], views[j])
  {
    var pool := new Allocator(slabSize);
    views := [];
    for k := 0 to |sizes|
      invariant pool.Valid() && fresh(pool) && pool.given == views && |views| == k
      invariant forall i :: 0 <= i < k ==>
        views[i].from % 8 == 0 && views[i].to - views[i].from == sizes[i] && views[i].to <= views[i].base.Length
    {
      var v := pool.Alloc(sizes[k]);
      views := views + [v];
    }
  }
}
