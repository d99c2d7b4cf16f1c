/** A growable buffer with the `Vec` and slice operations the tree programs use. */
module Vectors {
  import opened Slices

  class Vec<T> {
    var items: seq<T>

    constructor (items: seq<T>)
      ensures this.items == items
    {
      this.items := items;
    }

    method Push(x: T)
      modifies this
      ensures items == old(items) + [x]
    {
      items := items + [x];
    }

    /** `resize` upwards: the new tail is `fill`. */
    method Resize(n: nat, fill: T)
      requires |items| <= n
      modifies this
      ensures items == old(items) + seq(n - |old(items)|, _ => fill)
    {
      items := items + seq(n - |items|, _ => fill);
    }

    /** `copy_within`: the source range is read before any of it is overwritten. */
    method CopyWithin(lo: nat, hi: nat, dst: nat)
      requires lo <= hi <= |items|
      requires dst + (hi - lo) <= |items|
      modifies this
      ensures items == Splice(old(items), dst, old(items)[lo..hi])
    {
      items := items[..dst] + items[lo..hi] + items[dst + (hi - lo)..];
    }

    /** `copy_from_slice` into the range starting at `at`. */
    method Overwrite(at: nat, src: seq<T>)
      requires at + |src| <= |items|
      modifies this
      ensures items == Splice(old(items), at, src)
    {
      items := items[..at] + src + items[at + |src|..];
    }

    /** `split_off`: keep the first `at` items and return the rest. */
    method SplitOff(at: nat) returns (tail: Vec<T>)
      requires at <= |items|
      modifies this
      ensures fresh(tail)
      ensures items == old(items)[..at] && tail.items == old(items)[at..]
    {
      tail := new Vec(items[at..]);
      items := items[..at];
    }
  }
}
