module Lists {
  // Optional values and lists, as every part of the model uses them.

  datatype Option<T> = None | Some(value: T)

  lemma Assoc<T>(a: seq<T>, b: seq<T>, c: seq<T>)
    ensures a + (b + c) == a + b + c
  {
  }

  /** Taking one element off the front of a concatenation. */
  lemma Behead<T>(x: T, s: seq<T>)
    ensures ([x] + s)[0] == x && ([x] + s)[1..] == s
  {
  }

  predicate NoDup<T(==)>(s: seq<T>) { s == [] || (s[0] !in s[1..] && NoDup(s[1..])) }

  /** `s` without the first `x` in it. */
  function Remove<T(==)>(s: seq<T>, x: T): seq<T> {
    if s == [] then [] else if s[0] == x then s[1..] else [s[0]] + Remove(s[1..], x)
  }

  lemma {:induction false} RemoveKeeps<T>(s: seq<T>, x: T)
    requires NoDup(s)
    ensures NoDup(Remove(s, x)) && (forall y :: y in Remove(s, x) <==> y in s && y != x)
    ensures |Remove(s, x)| == if x in s then |s| - 1 else |s|
  {
    if s != [] {
      RemoveKeeps(s[1..], x);
      forall y ensures y in Remove(s, x) <==> y in s && y != x {
        assert y in s <==> y == s[0] || y in s[1..];
      }
    }
  }

  lemma {:induction false} AppendKeeps<T>(s: seq<T>, x: T)
    requires NoDup(s) && x !in s
    ensures NoDup(s + [x])
  {
    if s == [] {
      assert s + [x] == [x] && [x][1..] == [];
    } else {
      assert (s + [x])[1..] == s[1..] + [x];
      AppendKeeps(s[1..], x);
    }
  }

  lemma {:induction false} NoDupAppend<T>(a: seq<T>, b: seq<T>)
    requires NoDup(a) && NoDup(b) && forall x :: x in b ==> x !in a
    ensures NoDup(a + b)
  {
    if a == [] {
      assert a + b == b;
    } else {
      assert (a + b)[1..] == a[1..] + b && a == [a[0]] + a[1..];
      NoDupAppend(a[1..], b);
    }
  }

  lemma {:induction false} NoDupSplit<T>(a: seq<T>, b: seq<T>)
    requires NoDup(a + b)
    ensures NoDup(a) && NoDup(b) && forall x :: x in b ==> x !in a
  {
    if a == [] {
      assert a + b == b;
    } else {
      assert (a + b)[1..] == a[1..] + b && (a + b)[0] == a[0];
      NoDupSplit(a[1..], b);
      forall x | x in b ensures x !in a {
        assert x in a[1..] + b && a == [a[0]] + a[1..];
      }
      assert forall x :: x in a[1..] ==> x in a[1..] + b;
    }
  }

  lemma {:induction false} LastOnce<T>(a: seq<T>, z: T)
    requires NoDup(a + [z])
    ensures z !in a
  {
    if a != [] {
      assert (a + [z])[1..] == a[1..] + [z];
      LastOnce(a[1..], z);
    }
  }
}
