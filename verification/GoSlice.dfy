/** Go slices: a window into a backing array that may be shared with other windows.
    The window's capacity reaches to the end of the array. */
module GoSlice {

  datatype Slice<E> = Slice(arr: array<E>, off: nat, len: nat)
  {
    ghost predicate Valid() { off + len <= arr.Length }

    function Cap(): int { arr.Length - off }

    ghost function View(): (v: seq<E>)
      requires Valid()
      reads arr
      ensures |v| == len
    {
      arr[off..off + len]
    }

    /** s[:k], which keeps the capacity. */
    function Take(k: nat): (r: Slice<E>)
      requires Valid() && k <= len
      ensures r.Valid()
    {
      Slice(arr, off, k)
    }

    /** s[k:] */
    function Drop(k: nat): (r: Slice<E>)
      requires Valid() && k <= len
      ensures r.Valid()
    {
      Slice(arr, off + k, len - k)
    }
  }

  lemma SplitView<E>(s: Slice<E>, k: nat)
    requires s.Valid() && k <= s.len
    ensures s.Take(k).View() == s.View()[..k] && s.Drop(k).View() == s.View()[k..]
    ensures s.Take(k).View() + s.Drop(k).View() == s.View()
  {
  }

  /** append(dst, src...): in place when the capacity allows it, else into a new array of some larger size.
      `src` may be a later window of the same array; the copy then overlaps. */
  method Append<E>(dst: Slice<E>, src: Slice<E>) returns (r: Slice<E>)
    requires dst.Valid() && src.Valid()
    modifies dst.arr
    ensures r.Valid()
    ensures r.View() == old(dst.View()) + old(src.View())
    ensures fresh(r.arr) || (r.arr == dst.arr && r.off == dst.off)
    ensures forall i :: 0 <= i < dst.arr.Length && !(dst.off + dst.len <= i < dst.off + dst.len + src.len) ==>
                          dst.arr[i] == old(dst.arr[i])
    ensures fresh(r.arr) ==> dst.arr[..] == old(dst.arr[..])
  {
    if dst.len + src.len <= dst.Cap() {
      var base := dst.off + dst.len;
      forall i | 0 <= i < src.len {
        dst.arr[base + i] := src.arr[src.off + i];
      }
      r := Slice(dst.arr, dst.off, dst.len + src.len);
      assert r.View() == old(dst.View()) + old(src.View());
    } else {
      ghost var all := dst.View() + src.View();
      var front, back := dst.arr[dst.off..dst.off + dst.len], src.arr[src.off..src.off + src.len];
      var joined := front + back;
      assert joined == all;
      var newCap: int :| newCap >= |joined|;
      var b := new E[newCap](i => if 0 <= i < |joined| then joined[i] else joined[0]);
      r := Slice(b, 0, |joined|);
      assert r.View() == joined;
    }
  }
}
