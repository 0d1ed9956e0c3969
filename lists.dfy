/** The Python list operations the game script relies on, as functions on sequences. */
module Lists {

  datatype Option<T> = None | Some(value: T)

  /** No element occurs twice. */
  ghost predicate NoDup<T>(s: seq<T>)
  {
    forall i, j :: 0 <= i < j < |s| ==> s[i] != s[j]
  }

  /** `s.index(x)`: the position of the first occurrence of `x`. */
  function IndexOf<T(==)>(s: seq<T>, x: T): (r: nat)
    requires x in s
    ensures r < |s| && s[r] == x
    ensures forall j :: 0 <= j < r ==> s[j] != x
  {
    if s[0] == x then 0 else 1 + IndexOf(s[1..], x)
  }

  /** Without duplicates, the first occurrence of `s[j]` is `j` itself. */
  lemma IndexOfDistinct<T>(s: seq<T>, j: nat)
    requires j < |s| && NoDup(s)
    ensures IndexOf(s, s[j]) == j
  {
  }

  /** `s.remove(x)`: drops the first occurrence of `x`; a missing `x` leaves `s` alone here. */
  function RemoveFirst<T(==)>(s: seq<T>, x: T): (r: seq<T>)
  {
    if s == [] then []
    else if s[0] == x then s[1..]
    else [s[0]] + RemoveFirst(s[1..], x)
  }

  /** Removing the first occurrence cuts exactly the element at `IndexOf(s, x)`. */
  lemma {:induction false} RemoveFirstAt<T>(s: seq<T>, x: T)
    requires x in s
    ensures RemoveFirst(s, x) == s[..IndexOf(s, x)] + s[IndexOf(s, x) + 1..]
    ensures |RemoveFirst(s, x)| == |s| - 1
  {
    if s[0] != x {
      assert x in s[1..];
      RemoveFirstAt(s[1..], x);
      assert s[1..][..IndexOf(s[1..], x)] == s[1..IndexOf(s, x)];
      assert s[1..][IndexOf(s[1..], x) + 1..] == s[IndexOf(s, x) + 1..];
      assert [s[0]] + s[1..IndexOf(s, x)] == s[..IndexOf(s, x)];
    }
  }

  /** Exactly one copy of `x` disappears, and nothing else. */
  lemma {:induction false} RemoveFirstMultiset<T>(s: seq<T>, x: T)
    ensures multiset(RemoveFirst(s, x)) == multiset(s) - multiset{x}
  {
    if s != [] {
      assert s == [s[0]] + s[1..];
      if s[0] != x {
        RemoveFirstMultiset(s[1..], x);
      }
    }
  }

  /** A missing element leaves the list as it was. */
  lemma {:induction false} RemoveFirstAbsent<T>(s: seq<T>, x: T)
    requires x !in s
    ensures RemoveFirst(s, x) == s
  {
    if s != [] {
      assert x !in s[1..];
      RemoveFirstAbsent(s[1..], x);
    }
  }

  /** In a list without duplicates, `remove` takes the element out altogether. */
  lemma {:induction false} RemoveFirstGone<T>(s: seq<T>, x: T)
    requires NoDup(s)
    ensures x !in RemoveFirst(s, x)
  {
    if s != [] {
      var tail := s[1..];
      assert NoDup(tail) by {
        forall i, j | 0 <= i < j < |tail| ensures tail[i] != tail[j] {
          assert tail[i] == s[i + 1] && tail[j] == s[j + 1];
        }
      }
      if s[0] == x {
        forall k | 0 <= k < |tail| ensures tail[k] != x {
          assert tail[k] == s[k + 1];
        }
      } else {
        RemoveFirstGone(tail, x);
      }
    }
  }

  /** After `while len(s) > n: s.pop(0)`: the newest `n` entries, or all of them. */
  function Newest<T>(s: seq<T>, n: nat): (r: seq<T>)
    ensures |r| <= n && |r| <= |s|
    ensures |s| <= n ==> r == s
    ensures |s| > n ==> |r| == n
    ensures r == s[|s| - |r|..]
  {
    if |s| > n then s[|s| - n..] else s
  }

  /** Appending `x` and keeping the newest two leaves `x` last, after the previous last element if any. */
  lemma NewestPushed<T>(s: seq<T>, x: T)
    ensures |Newest(s + [x], 2)| == if |s| < 2 then |s| + 1 else 2
    ensures Newest(s + [x], 2)[|Newest(s + [x], 2)| - 1] == x
    ensures |s| >= 1 ==> Newest(s + [x], 2)[0] == s[|s| - 1]
  {
    var a := s + [x];
    var n := Newest(a, 2);
    assert n == a[|a| - |n|..];
    if |s| >= 2 {
      assert |n| == 2;
    }
  }

  /** The copy-and-append idiom `if x not in s: s = s[:]; s.append(x)`. */
  function AppendNew<T(==)>(s: seq<T>, x: T): (r: seq<T>)
    ensures x in r
    ensures x in s ==> r == s
    ensures forall i :: 0 <= i < |r| ==> r[i] in s || r[i] == x
    ensures |s| <= |r| <= |s| + 1 && r[..|s|] == s
    ensures NoDup(s) ==> NoDup(r)
  {
    if x in s then s else s + [x]
  }

  /** Appending an element that is already recorded changes nothing. */
  lemma AppendNewIdempotent<T>(s: seq<T>, x: T)
    ensures AppendNew(AppendNew(s, x), x) == AppendNew(s, x)
  {
  }
}
