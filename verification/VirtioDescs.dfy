/** Allocation of descriptors in kernel/virtio_disk.c: alloc_desc, free_desc, free_chain, alloc3_desc. */
module VirtioDescs {
  import opened Virtio

  /** ch is a chain of distinct descriptors in use, linked by next as long as the NEXT flag is set. */
  ghost predicate IsChain(desc: seq<Desc>, free: seq<bool>, ch: seq<nat>)
    requires |desc| == |free| == NUM
  {
    && ch != []
    && (forall k :: 0 <= k < |ch| ==> ch[k] < NUM && !free[ch[k]])
    && (forall j, k :: 0 <= j < k < |ch| ==> ch[j] != ch[k])
    && (forall k {:trigger desc[ch[k]]} :: 0 <= k < |ch| ==>
          desc[ch[k]].more == (k < |ch| - 1) && (k < |ch| - 1 ==> desc[ch[k]].next == ch[k + 1]))
  }

  /** The first k descriptors of the chain are free and cleared; the others are as before. */
  ghost predicate Freed(desc0: seq<Desc>, free0: seq<bool>, ch: seq<nat>, k: nat, desc: seq<Desc>, free: seq<bool>)
    requires |desc0| == |free0| == |desc| == |free| == NUM && k <= |ch|
  {
    && (forall j :: 0 <= j < NUM ==> free[j] == (free0[j] || j in ch[..k]))
    && (forall j :: 0 <= j < NUM ==> desc[j] == if j in ch[..k] then NODESC else desc0[j])
  }

  lemma FreeNext(desc0: seq<Desc>, free0: seq<bool>, ch: seq<nat>, k: nat, desc: seq<Desc>, free: seq<bool>)
    requires |desc0| == |free0| == |desc| == |free| == NUM && k < |ch| && IsChain(desc0, free0, ch)
    requires Freed(desc0, free0, ch, k, desc, free)
    ensures ch[k] < NUM && !free[ch[k]] && desc[ch[k]] == desc0[ch[k]]
    ensures desc[ch[k]].more == (k < |ch| - 1) && (k < |ch| - 1 ==> desc[ch[k]].next == ch[k + 1])
    ensures Freed(desc0, free0, ch, k + 1, desc[ch[k] := NODESC], free[ch[k] := true])
  {
    assert ch[k] !in ch[..k];
    assert ch[..k + 1] == ch[..k] + [ch[k]];
    assert desc0[ch[k]].more == (k < |ch| - 1);
  }

  class Table {
    var desc: seq<Desc>
    var free: seq<bool>

    ghost predicate Valid()
      reads this
    {
      |desc| == |free| == NUM
    }

    /** The lowest free descriptor, now in use; -1 exactly if none is free. */
    method AllocDesc() returns (i: int)
      requires Valid()
      modifies this`free
      ensures Valid()
      ensures i == -1 <==> forall j :: 0 <= j < NUM ==> !old(free)[j]
      ensures i == -1 ==> free == old(free)
      ensures i != -1 ==>
        0 <= i < NUM && old(free)[i] && free == old(free)[i := false] && forall j :: 0 <= j < i ==> !old(free)[j]
    {
      for k := 0 to NUM
        invariant free == old(free) && forall j :: 0 <= j < k ==> !free[j]
      {
        if free[k] {
          free := free[k := false];
          return k;
        }
      }
      return -1;
    }

    /** Panics exactly if i is no descriptor or is free already. */
    method FreeDesc(i: nat) returns (panic: bool)
      requires Valid()
      modifies this
      ensures Valid() && (panic <==> i >= NUM || old(free)[i])
      ensures panic ==> desc == old(desc) && free == old(free)
      ensures !panic ==> desc == old(desc)[i := NODESC] && free == old(free)[i := true]
    {
      if i >= NUM {
        return true;
      }
      if free[i] {
        return true;
      }
      desc := desc[i := NODESC];
      free := free[i := true];
      return false;
    }

    /** Frees exactly the descriptors of the chain ch that starts at its first, without a panic. */
    method FreeChain(start: nat, ghost ch: seq<nat>) returns (panic: bool)
      requires Valid() && IsChain(desc, free, ch) && start == ch[0]
      modifies this
      ensures Valid() && !panic && Freed(old(desc), old(free), ch, |ch|, desc, free)
    {
      var i := start;
      ghost var k := 0;
      while true
        invariant Valid() && 0 <= k < |ch| && i == ch[k] && Freed(old(desc), old(free), ch, k, desc, free)
        decreases |ch| - k
      {
        FreeNext(old(desc), old(free), ch, k, desc, free);
        var flag, nxt := desc[i].more, desc[i].next;
        panic := FreeDesc(i);
        if flag {
          i, k := nxt, k + 1;
        } else {
          return;
        }
      }
    }

    // The three turns of alloc3_desc()'s loop are written out.

    /** Three distinct free descriptors, now in use; or, if fewer are free, -1 and the same ones are free as before. */
    method Alloc3Desc() returns (r: int, idx: seq<int>)
      requires Valid()
      modifies this
      ensures Valid() && (r == 0 || r == -1)
      ensures r == -1 ==>
        free == old(free) && forall i, j, k :: 0 <= i < j < k < NUM ==> !(old(free)[i] && old(free)[j] && old(free)[k])
      ensures r == 0 ==>
        |idx| == 3 && 0 <= idx[0] < idx[1] < idx[2] < NUM && old(free)[idx[0]] && old(free)[idx[1]] && old(free)[idx[2]]
      ensures r == 0 ==> free == old(free)[idx[0] := false][idx[1] := false][idx[2] := false] && desc == old(desc)
    {
      var i := AllocDesc();
      if i < 0 {
        return -1, [];
      }
      var j := AllocDesc();
      if j < 0 {
        var p := FreeDesc(i);
        assert free == old(free);
        return -1, [];
      }
      assert i < j;
      var k := AllocDesc();
      if k < 0 {
        var p := FreeDesc(i);
        p := FreeDesc(j);
        assert free == old(free);
        return -1, [];
      }
      return 0, [i, j, k];
    }
  }
}
