/**
 * Rebinding controls in the keyboard and joystick menus.  One player's page
 * has thirteen bindings (left, right, up, down, jump, shoot, aim diagonal,
 * aim up, aim down, mode reset, mode, pause, map), each a list of keys or
 * joystick events that the menu edits in place.  The same functions serve
 * both menus: `K` is a key name for the keyboard and a joystick event tuple
 * for the joystick.
 */
module Controls {
  import opened Lists

  /** The number of bindings on one player's page. */
  const ActionCount: nat := 13

  /** The keyboard menu's side pass: a binding with more than one key loses `k`. */
  function StripShared<K(==)>(bs: seq<seq<K>>, k: K): (r: seq<seq<K>>)
    ensures |r| == |bs|
  {
    seq(|bs|, i requires 0 <= i < |bs| => if k in bs[i] && |bs[i]| > 1 then RemoveFirst(bs[i], k) else bs[i])
  }

  /** The joystick menu's side pass: every binding loses `e`. */
  function StripAll<K(==)>(bs: seq<seq<K>>, e: K): (r: seq<seq<K>>)
    ensures |r| == |bs|
  {
    seq(|bs|, i requires 0 <= i < |bs| => if e in bs[i] then RemoveFirst(bs[i], e) else bs[i])
  }

  /** Some binding has `k` as its only key, which refuses the new assignment. */
  predicate SoleKeySomewhere<K(==)>(bs: seq<seq<K>>, k: K)
  {
    exists i :: 0 <= i < |bs| && bs[i] == [k]
  }

  /** The effect of `toggle_key(bs[t], k)` on the whole page. */
  function ToggleKey<K(==)>(bs: seq<seq<K>>, t: nat, k: K): (r: seq<seq<K>>)
    requires t < |bs|
    ensures |r| == |bs|
  {
    if k in bs[t] then
      if |bs[t]| > 1 then bs[t := RemoveFirst(bs[t], k)] else bs
    else if SoleKeySomewhere(bs, k) then StripShared(bs, k)
    else StripShared(bs, k)[t := Newest(bs[t] + [k], 2)]
  }

  /** The effect of `toggle_js(bs[t], e)` on the whole page. */
  function ToggleJs<K(==)>(bs: seq<seq<K>>, t: nat, e: K): (r: seq<seq<K>>)
    requires t < |bs|
    ensures |r| == |bs|
  {
    if e in bs[t] then bs[t := RemoveFirst(bs[t], e)]
    else StripAll(bs, e)[t := Newest(bs[t] + [e], 2)]
  }

  /**
   * Pressing a key the binding already has removes it only when the binding
   * has another key; a one-key binding stays as it is; the rest of the page
   * is untouched.
   */
  lemma ToggleKeyPresent<K>(bs: seq<seq<K>>, t: nat, k: K)
    requires t < |bs| && k in bs[t]
    ensures |bs[t]| > 1 ==> multiset(ToggleKey(bs, t, k)[t]) == multiset(bs[t]) - multiset{k}
    ensures |bs[t]| > 1 ==> |ToggleKey(bs, t, k)[t]| == |bs[t]| - 1
    ensures |bs[t]| == 1 ==> ToggleKey(bs, t, k) == bs
    ensures ToggleKey(bs, t, k)[t] != []
    ensures forall i :: 0 <= i < |bs| && i != t ==> ToggleKey(bs, t, k)[i] == bs[i]
  {
    RemoveFirstMultiset(bs[t], k);
    RemoveFirstAt(bs[t], k);
  }

  /** A key that is another binding's only key is refused: the pressed binding keeps its keys. */
  lemma ToggleKeyRefused<K>(bs: seq<seq<K>>, t: nat, k: K)
    requires t < |bs| && k !in bs[t] && SoleKeySomewhere(bs, k)
    ensures ToggleKey(bs, t, k)[t] == bs[t]
    ensures k !in ToggleKey(bs, t, k)[t]
  {
    RemoveFirstAbsent(bs[t], k);
  }

  /**
   * A key no binding holds alone is appended to the pressed binding, which
   * keeps its newest two keys, so the new key is last.
   */
  lemma ToggleKeyAdded<K>(bs: seq<seq<K>>, t: nat, k: K)
    requires t < |bs| && k !in bs[t] && !SoleKeySomewhere(bs, k)
    ensures ToggleKey(bs, t, k)[t] == Newest(bs[t] + [k], 2)
    ensures |ToggleKey(bs, t, k)[t]| == if |bs[t]| < 2 then |bs[t]| + 1 else 2
    ensures ToggleKey(bs, t, k)[t][|ToggleKey(bs, t, k)[t]| - 1] == k
    ensures |bs[t]| >= 1 ==> ToggleKey(bs, t, k)[t][0] == bs[t][|bs[t]| - 1]
  {
    assert ToggleKey(bs, t, k)[t] == Newest(bs[t] + [k], 2);
    NewestPushed(bs[t], k);
  }

  /**
   * Adding a key the pressed binding lacks, refused or not, takes it from
   * every other binding that has a second key, and leaves the others alone.
   */
  lemma ToggleKeyOthers<K>(bs: seq<seq<K>>, t: nat, k: K, i: nat)
    requires t < |bs| && k !in bs[t] && i < |bs| && i != t
    ensures k in bs[i] && |bs[i]| > 1 ==>
              multiset(ToggleKey(bs, t, k)[i]) == multiset(bs[i]) - multiset{k}
    ensures !(k in bs[i] && |bs[i]| > 1) ==> ToggleKey(bs, t, k)[i] == bs[i]
    ensures NoDup(bs[i]) && |bs[i]| > 1 ==> k !in ToggleKey(bs, t, k)[i]
  {
    RemoveFirstMultiset(bs[i], k);
    if NoDup(bs[i]) {
      RemoveFirstGone(bs[i], k);
    }
  }

  /** The keyboard menu never leaves a binding without keys. */
  lemma ToggleKeyKeepsBound<K>(bs: seq<seq<K>>, t: nat, k: K)
    requires t < |bs|
    requires forall i :: 0 <= i < |bs| ==> bs[i] != []
    ensures forall i :: 0 <= i < |bs| ==> ToggleKey(bs, t, k)[i] != []
  {
    var r := ToggleKey(bs, t, k);
    forall i | 0 <= i < |bs| ensures r[i] != [] {
      if k in bs[i] && |bs[i]| > 1 {
        RemoveFirstAt(bs[i], k);
      }
    }
  }

  /** A joystick event the binding has is removed, even when it was the only one. */
  lemma ToggleJsPresent<K>(bs: seq<seq<K>>, t: nat, e: K)
    requires t < |bs| && e in bs[t]
    ensures multiset(ToggleJs(bs, t, e)[t]) == multiset(bs[t]) - multiset{e}
    ensures |ToggleJs(bs, t, e)[t]| == |bs[t]| - 1
    ensures bs[t] == [e] ==> ToggleJs(bs, t, e)[t] == []
    ensures forall i :: 0 <= i < |bs| && i != t ==> ToggleJs(bs, t, e)[i] == bs[i]
  {
    RemoveFirstMultiset(bs[t], e);
    RemoveFirstAt(bs[t], e);
  }

  /**
   * A joystick event the binding lacks is taken from every other binding and
   * appended last to the pressed one, which keeps its newest two events.
   */
  lemma ToggleJsAbsent<K>(bs: seq<seq<K>>, t: nat, e: K)
    requires t < |bs| && e !in bs[t]
    ensures ToggleJs(bs, t, e)[t] == Newest(bs[t] + [e], 2)
    ensures |ToggleJs(bs, t, e)[t]| <= 2
    ensures ToggleJs(bs, t, e)[t][|ToggleJs(bs, t, e)[t]| - 1] == e
    ensures forall i :: 0 <= i < |bs| && i != t ==>
              multiset(ToggleJs(bs, t, e)[i]) == multiset(bs[i]) - multiset{e}
  {
    forall i | 0 <= i < |bs| && i != t
      ensures multiset(ToggleJs(bs, t, e)[i]) == multiset(bs[i]) - multiset{e}
    {
      RemoveFirstMultiset(bs[i], e);
    }
  }

  /** In the joystick menu, a binding holding only the event assigned elsewhere ends up empty. */
  lemma ToggleJsMayEmpty<K>(bs: seq<seq<K>>, t: nat, i: nat, e: K)
    requires t < |bs| && i < |bs| && i != t && bs[i] == [e] && e !in bs[t]
    ensures ToggleJs(bs, t, e)[i] == []
  {
  }

  /** `while len(s) > n: s.pop(0)`. */
  method DropOldest<K>(s: seq<K>, n: nat) returns (r: seq<K>)
    ensures r == Newest(s, n)
  {
    r := s;
    while |r| > n
      invariant r == s[|s| - |r|..]
      invariant |r| >= n || r == s
    {
      r := r[1..];
    }
  }

  /** One menu's thirteen bindings for one player, edited in place. */
  class Bindings<K(==)> {
    var lists: seq<seq<K>>

    ghost predicate Valid()
      reads this
    {
      |lists| == ActionCount
    }

    constructor (initial: seq<seq<K>>)
      requires |initial| == ActionCount
      ensures Valid() && lists == initial
    {
      lists := initial;
    }

    /** `toggle_key` with `lists[t]` as the binding being edited. */
    method ToggleKeyAt(t: nat, k: K)
      requires Valid() && t < |lists|
      modifies this
      ensures Valid()
      ensures lists == ToggleKey(old(lists), t, k)
    {
      var bs := lists;
      if k in bs[t] {
        if |bs[t]| > 1 {
          lists := bs[t := RemoveFirst(bs[t], k)];
        }
      } else {
        var refused := false;
        var cur := bs;
        var i := 0;
        while i < |cur|
          invariant 0 <= i <= |cur| == |bs|
          invariant forall j :: 0 <= j < i ==> cur[j] == StripShared(bs, k)[j]
          invariant forall j :: i <= j < |cur| ==> cur[j] == bs[j]
          invariant refused <==> exists j :: 0 <= j < i && bs[j] == [k]
        {
          var other := cur[i];
          if k in other {
            if |other| > 1 {
              cur := cur[i := RemoveFirst(other, k)];
            } else {
              refused := true;
            }
          }
          i := i + 1;
        }
        assert cur == StripShared(bs, k);
        if !refused {
          var key := DropOldest(cur[t] + [k], 2);
          cur := cur[t := key];
        }
        lists := cur;
      }
    }

    /** `toggle_js` with `lists[t]` as the binding being edited. */
    method ToggleJsAt(t: nat, e: K)
      requires Valid() && t < |lists|
      modifies this
      ensures Valid()
      ensures lists == ToggleJs(old(lists), t, e)
    {
      var bs := lists;
      if e in bs[t] {
        lists := bs[t := RemoveFirst(bs[t], e)];
      } else {
        var cur := bs;
        var i := 0;
        while i < |cur|
          invariant 0 <= i <= |cur| == |bs|
          invariant forall j :: 0 <= j < i ==> cur[j] == StripAll(bs, e)[j]
          invariant forall j :: i <= j < |cur| ==> cur[j] == bs[j]
        {
          if e in cur[i] {
            cur := cur[i := RemoveFirst(cur[i], e)];
          }
          i := i + 1;
        }
        assert cur == StripAll(bs, e);
        var js := DropOldest(cur[t] + [e], 2);
        lists := cur[t := js];
      }
    }
  }
}
