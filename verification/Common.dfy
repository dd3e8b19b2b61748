/** Failure-carrying values and the few string operations of the Go standard
    library that the modelled code calls. */
module Common {

  datatype Option<+T> = None | Some(value: T)

  datatype Result<+T> = Ok(value: T) | Err

  /** strings.HasPrefix */
  predicate HasPrefix(s: string, p: string) {
    p <= s
  }

  /** strings.IndexByte: the first position of ch, or |s| when it does not occur. */
  function IndexOf(s: string, ch: char): (i: nat)
    ensures i <= |s|
    ensures i < |s| ==> s[i] == ch
  {
    if s == [] || s[0] == ch then 0 else 1 + IndexOf(s[1..], ch)
  }

  /** strings.LastIndexByte: the last position of ch, or -1. */
  function LastIndexOf(s: string, ch: char): (i: int)
    ensures -1 <= i < |s|
    ensures i >= 0 ==> s[i] == ch
  {
    if s == [] then -1
    else if s[|s| - 1] == ch then |s| - 1
    else LastIndexOf(s[..|s| - 1], ch)
  }

  lemma JoinCons(head: string, parts: seq<string>, sep: char)
    requires |parts| >= 1
    ensures Join([head] + parts, sep) == head + [sep] + Join(parts, sep)
  {
  }

  lemma {:induction false} IndexOfLacks(s: string, ch: char)
    ensures ch !in s[..IndexOf(s, ch)]
  {
    var i := IndexOf(s, ch);
    if i > 0 {
      IndexOfLacks(s[1..], ch);
      assert s[..i] == [s[0]] + s[1..][..i - 1];
    }
  }

  lemma {:induction false} LastIndexOfLacks(s: string, ch: char)
    ensures ch !in s[LastIndexOf(s, ch) + 1..]
  {
    var i, n := LastIndexOf(s, ch), |s| - 1;
    if s != [] && s[n] != ch {
      LastIndexOfLacks(s[..n], ch);
      assert s[i + 1..] == s[..n][i + 1..] + [s[n]];
    }
  }

  /** strings.Split on a one-byte separator. */
  function Split(s: string, sep: char): (parts: seq<string>)
    ensures |parts| >= 1
  {
    var i := IndexOf(s, sep);
    if i == |s| then [s] else [s[..i]] + Split(s[i + 1..], sep)
  }

  /** strings.Join with a one-byte separator: the inverse of Split. */
  function Join(parts: seq<string>, sep: char): string
    requires |parts| >= 1
  {
    if |parts| == 1 then parts[0] else parts[0] + [sep] + Join(parts[1..], sep)
  }

  lemma Associative<T>(a: seq<T>, b: seq<T>, c: seq<T>)
    ensures a + (b + c) == (a + b) + c
  {
  }

  lemma TakeLeft<T>(a: seq<T>, b: seq<T>, k: nat)
    requires k <= |a|
    ensures (a + b)[..k] == a[..k]
  {
  }

  lemma TakeRight<T>(a: seq<T>, b: seq<T>, k: nat)
    requires |a| <= k <= |a| + |b|
    ensures (a + b)[..k] == a + b[..k - |a|]
  {
  }

  lemma ThreeParts<T>(s: seq<T>, a: seq<T>, b: seq<T>, c: seq<T>)
    requires |a| + |b| <= |s| && a == s[..|a|] && b == s[|a|..|a| + |b|] && c == s[|a| + |b|..]
    ensures s == a + b + c
  {
  }

  /** Extending a prefix of s by the first j elements of what follows it. */
  lemma TakeMore<T>(s: seq<T>, m: nat, e: seq<T>, tail: seq<T>, j: nat)
    requires m <= |s| && s[m..] == e + tail && j <= |e|
    ensures m + j <= |s| && s[..m] + e[..j] == s[..m + j]
    ensures m + |e| <= |s| && s[m + |e|..] == tail
  {
  }

  /** A string is what is before a position, the character there, and what follows. */
  lemma CutAt(s: string, i: nat, before: string, after: string)
    requires i < |s| && before == s[..i] && after == s[i + 1..]
    ensures s == before + [s[i]] + after
  {
  }

  lemma SliceLacks(s: string, i: nat, j: nat, ch: char)
    requires i <= j <= |s| && ch !in s
    ensures ch !in s[i..j]
  {
  }

  lemma {:induction false} IndexOfFirst(s: string, t: string, ch: char)
    requires ch !in s
    ensures IndexOf(s + [ch] + t, ch) == |s|
    ensures IndexOf(s, ch) == |s|
  {
    if s != [] {
      assert s[0] in s;
      assert (s + [ch] + t)[1..] == s[1..] + [ch] + t;
      IndexOfFirst(s[1..], t, ch);
    }
  }

  lemma {:induction false} LastIndexOfLast(s: string, t: string, ch: char)
    requires ch !in t
    ensures LastIndexOf(s + [ch] + t, ch) == |s|
  {
    if t != [] {
      var n := |t| - 1;
      assert t[n] in t;
      assert (s + [ch] + t)[..|s| + 1 + n] == s + [ch] + t[..n];
      LastIndexOfLast(s, t[..n], ch);
    }
  }

  lemma SplitCons(head: string, rest: string, sep: char)
    requires sep !in head
    ensures Split(head + [sep] + rest, sep) == [head] + Split(rest, sep)
  {
    IndexOfFirst(head, rest, sep);
    var s := head + [sep] + rest;
    assert s[..|head|] == head && s[|head| + 1..] == rest;
  }

  /** Splitting a joined list gives the list back. */
  lemma {:induction false} SplitJoin(parts: seq<string>, sep: char)
    requires |parts| >= 1
    requires forall p :: p in parts ==> sep !in p
    ensures Split(Join(parts, sep), sep) == parts
  {
    if |parts| == 1 {
      IndexOfFirst(parts[0], [], sep);
    } else {
      SplitCons(parts[0], Join(parts[1..], sep), sep);
      SplitJoin(parts[1..], sep);
    }
  }

  /** Joining a split string gives the string back. */
  lemma {:induction false} JoinSplit(s: string, sep: char)
    ensures Join(Split(s, sep), sep) == s
    decreases |s|
  {
    var i := IndexOf(s, sep);
    if i < |s| {
      var t := s[i + 1..];
      JoinSplit(t, sep);
      var parts := Split(t, sep);
      var head := s[..i];
      assert Split(s, sep) == [head] + parts;
      CutAt(s, i, head, t);
      JoinCons(head, parts, sep);
      hide Join;
    }
  }

  /** No part of a split string holds the separator. */
  lemma {:induction false} SplitLacks(s: string, sep: char, k: nat)
    requires k < |Split(s, sep)|
    ensures sep !in Split(s, sep)[k]
    decreases |s|
  {
    var i := IndexOf(s, sep);
    if i < |s| && k > 0 {
      SplitLacks(s[i + 1..], sep, k - 1);
    } else {
      IndexOfLacks(s, sep);
      assert i == |s| ==> s[..i] == s;
    }
  }
}
