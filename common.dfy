/** Small value types and string helpers shared by the chat server model. */
module Common {

  datatype Option<+T> = None | Some(value: T)

  datatype Result<+T, +E> = Success(value: T) | Failure(error: E)

  /** SQL `LIMIT n` as SQLite reads it: a negative bound means no bound at all. */
  function Limit<T>(s: seq<T>, n: int): (r: seq<T>)
    ensures n < 0 ==> r == s
    ensures 0 <= n ==> |r| == if n < |s| then n else |s|
    ensures r == s[..|r|]
  {
    if n < 0 || |s| <= n then s else s[..n]
  }

  /** A non-zero limit keeps a non-empty front, whose last element is the one at its length. */
  lemma LimitFront<T>(s: seq<T>, n: int)
    requires n != 0
    ensures var w := Limit(s, n);
            && w == s[..|w|]
            && (w == [] <==> s == [])
            && (w != [] ==> w[|w| - 1] == s[|w| - 1])
  {
  }

  /** Sequences with the same multiset have the same members. */
  lemma SameMembers<T>(a: seq<T>, b: seq<T>)
    requires multiset(a) == multiset(b)
    ensures forall x :: x in a <==> x in b
  {
    forall x
      ensures x in a <==> x in b
    {
      assert x in a <==> x in multiset(a);
      assert x in b <==> x in multiset(b);
    }
  }

  /** Cutting a sequence splits the multiplicity of each element between the two parts. */
  lemma SplitCounts<T>(s: seq<T>, k: nat)
    requires k <= |s|
    ensures multiset(s) == multiset(s[..k]) + multiset(s[k..])
  {
    assert s == s[..k] + s[k..];
  }

  /** A prefix reaching into the second part of a concatenation. */
  lemma PrefixOfConcat<T>(a: seq<T>, b: seq<T>, j: nat)
    requires j <= |b|
    ensures (a + b)[..|a| + j] == a + b[..j]
  {
  }

  /** Growing a prefix by one element. */
  lemma PrefixStep<T>(s: seq<T>, i: nat)
    requires i < |s|
    ensures s[..i + 1] == s[..i] + [s[i]]
  {
  }

  /** What is appended to a sequence leaves it as the prefix. */
  lemma PrefixOfAppended<T>(a: seq<T>, b: seq<T>)
    ensures (a + b)[..|a|] == a
  {
  }

  /** A limit that cuts before a new last element ignores it; one that does not keeps it. */
  lemma LimitAppend<T>(s: seq<T>, x: T, n: int)
    ensures Limit(s + [x], n) == if 0 <= n <= |s| then Limit(s, n) else s + [x]
  {
    if 0 <= n <= |s| {
      assert (s + [x])[..n] == s[..n];
    }
  }

  /** A sequence is its front followed by the rest. */
  lemma SplitAt<T>(s: seq<T>, front: seq<T>, back: seq<T>)
    requires |front| <= |s| && front == s[..|front|] && back == s[|front|..]
    ensures s == front + back
  {
    assert s == s[..|front|] + s[|front|..];
  }

  /** Python's `"".join(parts)`. */
  function Join(parts: seq<string>): string
  {
    if parts == [] then "" else parts[0] + Join(parts[1..])
  }

  lemma {:induction false} JoinAppend(a: seq<string>, b: seq<string>)
    ensures Join(a + b) == Join(a) + Join(b)
  {
    if a == [] {
      assert a + b == b;
    } else {
      assert (a + b)[1..] == a[1..] + b;
      JoinAppend(a[1..], b);
    }
  }

  /** Joining non-empty pieces gives at least one character per piece. */
  lemma {:induction false} JoinLength(parts: seq<string>)
    requires forall i :: 0 <= i < |parts| ==> parts[i] != ""
    ensures |Join(parts)| >= |parts|
  {
    if parts != [] {
      JoinLength(parts[1..]);
    }
  }

  /** `str.lower()` restricted to ASCII letters. */
  function LowerChar(c: char): char
  {
    if 'A' <= c <= 'Z' then (c as int + 32) as char else c
  }

  function Lower(s: string): (r: string)
    ensures |r| == |s|
    ensures forall i :: 0 <= i < |s| ==> r[i] == LowerChar(s[i])
  {
    seq(|s|, i requires 0 <= i < |s| => LowerChar(s[i]))
  }

  /** The characters Python's `str.isspace()` accepts. */
  predicate IsSpace(c: char)
  {
    var n := c as int;
    (9 <= n <= 13) || (28 <= n <= 32) || n == 0x85 || n == 0xA0 || n == 0x1680
    || (0x2000 <= n <= 0x200A) || n == 0x2028 || n == 0x2029 || n == 0x202F
    || n == 0x205F || n == 0x3000
  }

  /** Length of the longest all-whitespace prefix. */
  function LeadingSpaces(s: string): (k: nat)
    ensures k <= |s|
    ensures forall i :: 0 <= i < k ==> IsSpace(s[i])
    ensures k == |s| || !IsSpace(s[k])
  {
    if s != [] && IsSpace(s[0]) then 1 + LeadingSpaces(s[1..]) else 0
  }

  /** Length of the longest all-whitespace suffix. */
  function TrailingSpaces(s: string): (k: nat)
    ensures k <= |s|
    ensures forall i :: |s| - k <= i < |s| ==> IsSpace(s[i])
    ensures k == |s| || !IsSpace(s[|s| - 1 - k])
  {
    if s != [] && IsSpace(s[|s| - 1]) then 1 + TrailingSpaces(s[..|s| - 1]) else 0
  }

  /** Python's `str.strip()`: drop the whitespace at both ends. */
  function Strip(s: string): (r: string)
    ensures r == "" || (!IsSpace(r[0]) && !IsSpace(r[|r| - 1]))
    ensures exists i, j ::
              && 0 <= i <= j <= |s| && r == s[i..j]
              && (forall k :: 0 <= k < i ==> IsSpace(s[k]))
              && (forall k :: j <= k < |s| ==> IsSpace(s[k]))
  {
    var i := LeadingSpaces(s);
    var t := s[i..];
    var j := |t| - TrailingSpaces(t);
    assert t[..j] == s[i..i + j];
    t[..j]
  }

  function DigitChar(d: nat): char
    requires d < 10
  {
    ('0' as int + d) as char
  }

  function NatToString(n: nat): string
  {
    if n < 10 then [DigitChar(n)] else NatToString(n / 10) + [DigitChar(n % 10)]
  }

  /** Python's `str(n)` for an integer. */
  function IntToString(n: int): string
  {
    if n < 0 then "-" + NatToString(-n) else NatToString(n)
  }
}
