/**
 * Cart entries as values, the cost of a cart, and what one pass of
 * `remove_item` does to the entry list. The pass is index-based, as Python's
 * list iteration is: removing an entry shifts the next one into the slot
 * just examined, and the pass never looks at it.
 */
module CartSpec {

  /** One cart entry: the product name, how many, and the unit price at the time it was added. */
  datatype Item = Item(name: string, quantity: int, price: int)

  /** Sum of quantity * price over the entries. */
  function Cost(s: seq<Item>): int {
    if s == [] then 0 else Cost(s[..|s| - 1]) + s[|s| - 1].quantity * s[|s| - 1].price
  }

  lemma {:induction false} CostAppend(a: seq<Item>, b: seq<Item>)
    ensures Cost(a + b) == Cost(a) + Cost(b)
    decreases |b|
  {
    if b == [] {
      assert a + b == a;
    } else {
      var init := b[..|b| - 1];
      CostAppend(a, init);
      assert (a + b)[..|a + b| - 1] == a + init;
    }
  }

  /** Index of the first entry equal to x. */
  function FirstIndex(s: seq<Item>, x: Item): (j: nat)
    requires x in s
    ensures j < |s| && s[j] == x
    ensures forall k :: 0 <= k < j ==> s[k] != x
  {
    if s[0] == x then 0 else FirstIndex(s[1..], x) + 1
  }

  /** Python's list.remove(x): delete the first entry equal to x (entries compare by value). */
  function RemoveFirst(s: seq<Item>, x: Item): (r: seq<Item>)
    requires x in s
    ensures |r| == |s| - 1
    ensures multiset(r) == multiset(s) - multiset{x}
  {
    var j := FirstIndex(s, x);
    assert s == s[..j] + [x] + s[j + 1..];
    s[..j] + s[j + 1..]
  }

  /** The entry with its quantity lowered by one. */
  function Decremented(e: Item): Item {
    e.(quantity := e.quantity - 1)
  }

  /**
   * The remove_item pass from index i on: an entry named `name` with
   * quantity 1 is removed with list.remove, any other entry with that name is
   * decremented, and the pass moves on to index i + 1 either way.
   */
  function Sweep(s: seq<Item>, i: nat, name: string): (r: seq<Item>)
    ensures |r| <= |s|
    decreases |s| - i
  {
    if i >= |s| then s
    else if s[i].name != name then Sweep(s, i + 1, name)
    else if s[i].quantity == 1 then Sweep(RemoveFirst(s, s[i]), i + 1, name)
    else Sweep(s[i := Decremented(s[i])], i + 1, name)
  }

  /** The entries not named `name`, in order. */
  function Others(s: seq<Item>, name: string): seq<Item> {
    if s == [] then []
    else (if s[0].name != name then [s[0]] else []) + Others(s[1..], name)
  }

  /**
   * `out` is `src` with, entry by entry and in order, each entry kept as it
   * is, or (when it is named `name` and its quantity is not 1) kept with one
   * unit off, or (when it is named `name` and its quantity is 1, or 2 so that
   * it was first decremented) dropped.
   */
  predicate Shrunk(out: seq<Item>, src: seq<Item>, name: string)
    decreases |src|
  {
    if src == [] then out == []
    else
      || (out != [] && out[0] == src[0] && Shrunk(out[1..], src[1..], name))
      || (out != [] && src[0].name == name && src[0].quantity != 1 &&
          out[0] == Decremented(src[0]) && Shrunk(out[1..], src[1..], name))
      || (src[0].name == name && (src[0].quantity == 1 || src[0].quantity == 2) &&
          Shrunk(out, src[1..], name))
  }

  /** A pass over a cart with no entry named `name` changes nothing. */
  lemma {:induction false} SweepNoMatch(s: seq<Item>, i: nat, name: string)
    requires forall k :: 0 <= k < |s| ==> s[k].name != name
    ensures Sweep(s, i, name) == s
    decreases |s| - i
  {
    if i < |s| {
      SweepNoMatch(s, i + 1, name);
    }
  }

  lemma {:induction false} OthersConcat(a: seq<Item>, b: seq<Item>, name: string)
    ensures Others(a + b, name) == Others(a, name) + Others(b, name)
    decreases |a|
  {
    if a == [] {
      assert a + b == b;
    } else {
      assert (a + b)[1..] == a[1..] + b;
      OthersConcat(a[1..], b, name);
    }
  }

  /** Replacing a matching entry by another matching entry leaves the other entries alone. */
  lemma OthersUpdate(s: seq<Item>, i: nat, e: Item, name: string)
    requires i < |s| && s[i].name == name && e.name == name
    ensures Others(s[i := e], name) == Others(s, name)
  {
    assert s == s[..i] + [s[i]] + s[i + 1..];
    assert s[i := e] == s[..i] + [e] + s[i + 1..];
    OthersConcat(s[..i] + [s[i]], s[i + 1..], name);
    OthersConcat(s[..i], [s[i]], name);
    OthersConcat(s[..i] + [e], s[i + 1..], name);
    OthersConcat(s[..i], [e], name);
  }

  /** Removing a matching entry leaves the other entries alone. */
  lemma OthersRemoveFirst(s: seq<Item>, x: Item, name: string)
    requires x in s && x.name == name
    ensures Others(RemoveFirst(s, x), name) == Others(s, name)
  {
    var j := FirstIndex(s, x);
    assert s == s[..j] + [s[j]] + s[j + 1..];
    OthersConcat(s[..j] + [s[j]], s[j + 1..], name);
    OthersConcat(s[..j], [s[j]], name);
    OthersConcat(s[..j], s[j + 1..], name);
  }

  /** A pass never touches an entry with another name, nor their order. */
  lemma {:induction false} SweepKeepsOthers(s: seq<Item>, i: nat, name: string)
    ensures Others(Sweep(s, i, name), name) == Others(s, name)
    decreases |s| - i
  {
    if i < |s| && s[i].name == name {
      if s[i].quantity == 1 {
        OthersRemoveFirst(s, s[i], name);
        SweepKeepsOthers(RemoveFirst(s, s[i]), i + 1, name);
      } else {
        OthersUpdate(s, i, Decremented(s[i]), name);
        SweepKeepsOthers(s[i := Decremented(s[i])], i + 1, name);
      }
    } else if i < |s| {
      SweepKeepsOthers(s, i + 1, name);
    }
  }

  lemma {:induction false} ShrunkAppend(a: seq<Item>, b: seq<Item>, c: seq<Item>, d: seq<Item>, name: string)
    requires Shrunk(a, b, name) && Shrunk(c, d, name)
    ensures Shrunk(a + c, b + d, name)
    decreases |b|
  {
    if b == [] {
      assert a + c == c && b + d == d;
    } else {
      assert (b + d)[0] == b[0] && (b + d)[1..] == b[1..] + d;
      if a != [] && Shrunk(a[1..], b[1..], name) &&
         (a[0] == b[0] || (b[0].name == name && b[0].quantity != 1 && a[0] == Decremented(b[0])))
      {
        ShrunkAppend(a[1..], b[1..], c, d, name);
        assert (a + c)[0] == a[0] && (a + c)[1..] == a[1..] + c;
      } else {
        ShrunkAppend(a, b[1..], c, d, name);
      }
    }
  }

  /** One matching entry of quantity 1 can always be dropped from a shrunk list. */
  lemma {:induction false} ShrunkRemove(p: seq<Item>, q: seq<Item>, j: nat, name: string)
    requires Shrunk(p, q, name) && j < |p| && p[j].name == name && p[j].quantity == 1
    ensures Shrunk(p[..j] + p[j + 1..], q, name)
    decreases |q|
  {
    assert q != [];
    if Shrunk(p[1..], q[1..], name) &&
       (p[0] == q[0] || (q[0].name == name && q[0].quantity != 1 && p[0] == Decremented(q[0])))
    {
      if j == 0 {
        assert p[..j] + p[j + 1..] == p[1..];
      } else {
        ShrunkRemove(p[1..], q[1..], j - 1, name);
        assert p[..j] + p[j + 1..] == [p[0]] + (p[1..][..j - 1] + p[1..][j..]);
      }
    } else {
      ShrunkRemove(p, q[1..], j, name);
    }
  }

  lemma ShrunkKeep(x: Item, name: string)
    ensures Shrunk([x], [x], name)
  {
    assert [x][1..] == [];
  }

  /** Moving the boundary past an entry that is kept as it is. */
  lemma KeepNext(u: seq<Item>, kept: seq<Item>, s0: seq<Item>, k: nat, name: string)
    requires k < |s0| && u == kept + s0[k..] && Shrunk(kept, s0[..k], name)
    ensures u[..|kept| + 1] == kept + [s0[k]] && u[|kept| + 1..] == s0[k + 1..]
    ensures Shrunk(u[..|kept| + 1], s0[..k + 1], name)
  {
    ShrunkKeep(s0[k], name);
    ShrunkAppend(kept, s0[..k], [s0[k]], [s0[k]], name);
    assert s0[k..] == [s0[k]] + s0[k + 1..];
    assert s0[..k + 1] == s0[..k] + [s0[k]];
  }

  /** The boundary between the part already passed and the input's own tail. */
  lemma SplitAt(t: seq<Item>, i: nat, s0: seq<Item>, k: nat)
    requires i < |t| && k < |s0| && t[i..] == s0[k..]
    ensures t[i] == s0[k] && t == t[..i] + [t[i]] + s0[k + 1..]
    ensures s0[..k + 1] == s0[..k] + [s0[k]]
  {
    assert t[i..][0] == t[i] && s0[k..][0] == s0[k];
    assert t == t[..i] + t[i..];
    assert s0[k..] == [s0[k]] + s0[k + 1..];
  }

  /**
   * Where list.remove strikes when the entry x at index |p| is removed:
   * at |p| itself, or at an earlier index j where p already holds x.
   */
  lemma RemoveFirstShape(p: seq<Item>, x: Item, tail: seq<Item>) returns (j: nat)
    ensures j <= |p| && (j < |p| ==> p[j] == x)
    ensures RemoveFirst(p + [x] + tail, x) == if j == |p| then p + tail else p[..j] + p[j + 1..] + [x] + tail
  {
    var t := p + [x] + tail;
    assert t[|p|] == x;
    j := FirstIndex(t, x);
    if j < |p| {
      assert t[..j] == p[..j] && t[j + 1..] == p[j + 1..] + [x] + tail;
    } else {
      assert t[..j] == p && t[j + 1..] == tail;
    }
  }

  /** The removed entry is the current one: it is dropped. */
  lemma DropCurrent(p: seq<Item>, q: seq<Item>, x: Item, name: string)
    requires Shrunk(p, q, name) && x.name == name && x.quantity == 1
    ensures Shrunk(p, q + [x], name)
  {
    assert Shrunk([], [x], name) by { assert [x][1..] == []; }
    ShrunkAppend(p, q, [], [x], name);
    assert p + [] == p;
  }

  /** The removed entry is an earlier equal one: that one is dropped and the current one kept. */
  lemma DropEarlier(p: seq<Item>, q: seq<Item>, j: nat, x: Item, name: string)
    requires Shrunk(p, q, name) && j < |p| && p[j] == x && x.name == name && x.quantity == 1
    ensures Shrunk(p[..j] + p[j + 1..] + [x], q + [x], name)
  {
    ShrunkRemove(p, q, j, name);
    ShrunkKeep(x, name);
    ShrunkAppend(p[..j] + p[j + 1..], q, [x], [x], name);
  }

  /**
   * list.remove of the matching quantity-1 entry at index i takes out either
   * that entry or an earlier equal one; either way what stays before the
   * untouched tail is a shrunk copy of the input up to and including it.
   */
  lemma RemoveStep(t: seq<Item>, i: nat, name: string, s0: seq<Item>, k: nat) returns (kept: seq<Item>)
    requires i < |t| && k < |s0| && t[i..] == s0[k..] && Shrunk(t[..i], s0[..k], name)
    requires t[i].name == name && t[i].quantity == 1
    ensures RemoveFirst(t, t[i]) == kept + s0[k + 1..] && |kept| == i
    ensures Shrunk(kept, s0[..k + 1], name)
  {
    var x := t[i];
    SplitAt(t, i, s0, k);
    var j := RemoveFirstShape(t[..i], x, s0[k + 1..]);
    if j == i {
      kept := t[..i];
      DropCurrent(t[..i], s0[..k], x, name);
    } else {
      kept := t[..i][..j] + t[..i][j + 1..] + [x];
      DropEarlier(t[..i], s0[..k], j, x, name);
    }
  }

  /** The pass moves past an entry with another name, which it keeps. */
  lemma SkipStep(t: seq<Item>, i: nat, name: string, s0: seq<Item>, k: nat)
    requires i < |t| && k < |s0| && t[i..] == s0[k..] && Shrunk(t[..i], s0[..k], name)
    ensures t[i + 1..] == s0[k + 1..] && Shrunk(t[..i + 1], s0[..k + 1], name)
  {
    assert t[..i] + t[i..] == t;
    KeepNext(t, t[..i], s0, k, name);
  }

  /** The pass takes one unit off the matching entry at index i. */
  lemma DecrementStep(t: seq<Item>, i: nat, name: string, s0: seq<Item>, k: nat)
    requires i < |t| && k < |s0| && t[i..] == s0[k..] && Shrunk(t[..i], s0[..k], name)
    requires t[i].name == name && t[i].quantity != 1
    ensures var t' := t[i := Decremented(t[i])];
      t'[i + 1..] == s0[k + 1..] && Shrunk(t'[..i + 1], s0[..k + 1], name)
  {
    var x := t[i];
    var t' := t[i := Decremented(x)];
    var p, q := t[..i], s0[..k];
    assert t[i..][0] == x && s0[k..][0] == s0[k];
    assert Shrunk([Decremented(x)], [x], name) by { assert [Decremented(x)][1..] == [] && [x][1..] == []; }
    ShrunkAppend(p, q, [Decremented(x)], [x], name);
    assert s0[..k + 1] == q + [x];
    assert t'[..i + 1] == p + [Decremented(x)];
    assert t'[i + 1..] == t[i + 1..] == t[i..][1..];
  }

  /**
   * From index i on, the entries are still the input's own (those from
   * index k on), and the entries before i are a shrunk copy of the input's
   * first k entries; so the whole pass yields a shrunk copy of the input.
   */
  lemma {:induction false} SweepShrinks(t: seq<Item>, i: nat, name: string, s0: seq<Item>, k: nat)
    requires k <= |s0|
    requires i <= |t| ==> t[i..] == s0[k..] && Shrunk(t[..i], s0[..k], name)
    requires i > |t| ==> Shrunk(t, s0, name)
    ensures Shrunk(Sweep(t, i, name), s0, name)
    decreases |t| - i
  {
    if i == |t| {
      assert t[..i] == t && s0[..k] == s0;
    } else if i < |t| {
      assert k < |s0| by { assert |t[i..]| == |s0[k..]|; }
      if t[i].name != name {
        SkipStep(t, i, name, s0, k);
        SweepShrinks(t, i + 1, name, s0, k + 1);
      } else if t[i].quantity == 1 {
        var t' := RemoveFirst(t, t[i]);
        var kept := RemoveStep(t, i, name, s0, k);
        if k + 1 < |s0| {
          KeepNext(t', kept, s0, k + 1, name);
          SweepShrinks(t', i + 1, name, s0, k + 2);
        } else {
          assert t' == kept && s0[..k + 1] == s0;
          SweepShrinks(t', i + 1, name, s0, k + 1);
        }
      } else {
        DecrementStep(t, i, name, s0, k);
        SweepShrinks(t[i := Decremented(t[i])], i + 1, name, s0, k + 1);
      }
    }
  }

  /** remove_item as a whole: only matching entries are decremented or deleted; nothing else changes. */
  lemma RemovePassEffect(s: seq<Item>, name: string)
    ensures Others(Sweep(s, 0, name), name) == Others(s, name)
    ensures |Sweep(s, 0, name)| <= |s|
    ensures Shrunk(Sweep(s, 0, name), s, name)
    ensures (forall k :: 0 <= k < |s| ==> s[k].name != name) ==> Sweep(s, 0, name) == s
  {
    SweepKeepsOthers(s, 0, name);
    assert s[..0] == [] && s[0..] == s;
    SweepShrinks(s, 0, name, s, 0);
    if forall k :: 0 <= k < |s| ==> s[k].name != name {
      SweepNoMatch(s, 0, name);
    }
  }

  /**
   * The relation is tight: a pass cannot delete an entry of quantity 5, nor
   * turn [ipad x3, ipad x5] into [ipad x3, ipad x3].
   */
  lemma ShrunkExcludes()
    ensures !Shrunk([], [Item("ipad", 5, 3000)], "ipad")
    ensures !Shrunk([Item("ipad", 3, 3000), Item("ipad", 3, 3000)],
                    [Item("ipad", 3, 3000), Item("ipad", 5, 3000)], "ipad")
  {
    var a, b := Item("ipad", 3, 3000), Item("ipad", 5, 3000);
    assert [a, b][1..] == [b] && [a, a][1..] == [a];
    assert !Shrunk([a], [b], "ipad") by { assert [a][1..] == [] && [b][1..] == []; }
  }

  /**
   * Two ipads with quantity 1 then 2: removing the first shifts the second
   * into the examined slot, so it is never decremented.
   */
  lemma EntryAfterRemovalIsSkipped()
    ensures Sweep([Item("ipad", 1, 3000), Item("ipad", 2, 3000)], 0, "ipad") == [Item("ipad", 2, 3000)]
  {
  }

  /**
   * list.remove deletes the first EQUAL entry: once the first iphone has
   * been decremented to 1 it equals the later one, and it is the earlier
   * one that goes, so the surviving iphone ends up after the imac.
   */
  lemma RemoveTakesEarlierEqualEntry()
    ensures Sweep([Item("iphone", 2, 900), Item("imac", 1, 5000), Item("iphone", 1, 900)], 0, "iphone")
         == [Item("imac", 1, 5000), Item("iphone", 1, 900)]
  {
    var s0 := [Item("iphone", 2, 900), Item("imac", 1, 5000), Item("iphone", 1, 900)];
    var s1 := [Item("iphone", 1, 900), Item("imac", 1, 5000), Item("iphone", 1, 900)];
    assert Sweep(s0, 0, "iphone") == Sweep(s1, 1, "iphone") == Sweep(s1, 2, "iphone");
    assert RemoveFirst(s1, s1[2]) == [Item("imac", 1, 5000), Item("iphone", 1, 900)];
  }
}
