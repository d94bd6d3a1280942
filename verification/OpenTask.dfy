/** File lists and ids of new tasks (internal/coord/open_task.go). */
module OpenTask {
  // ----- sort.Strings -----

  /** The byte-wise order of Go strings. */
  predicate Leq(a: string, b: string) {
    a == "" || (b != "" && (a[0] < b[0] || (a[0] == b[0] && Leq(a[1..], b[1..]))))
  }

  lemma {:induction false} LeqOrder(a: string, b: string, c: string)
    ensures Leq(a, a)
    ensures Leq(a, b) || Leq(b, a)
    ensures Leq(a, b) && Leq(b, a) ==> a == b
    ensures Leq(a, b) && Leq(b, c) ==> Leq(a, c)
  {
    if a != "" {
      LeqOrder(a[1..], if b == "" then b else b[1..], if c == "" then c else c[1..]);
      if b != "" && a[0] == b[0] && a[1..] == b[1..] {
        assert a == [a[0]] + a[1..] == b;
      }
    }
  }

  /** The order written out: a comes first when b starts with it, or where they first
      differ a has the smaller byte. */
  lemma {:induction false} LeqIff(a: string, b: string)
    ensures Leq(a, b) <==> a <= b || exists i | 0 <= i < |a| && i < |b| :: a[..i] == b[..i] && a[i] < b[i]
  {
    if a != "" && b != "" {
      LeqIff(a[1..], b[1..]);
      if a[0] == b[0] {
        if a[1..] <= b[1..] {
          assert a == [a[0]] + a[1..] && b == [b[0]] + b[1..];
        }
        if i :| 0 <= i < |a[1..]| && i < |b[1..]| && a[1..][..i] == b[1..][..i] && a[1..][i] < b[1..][i] {
          assert a[..i + 1] == [a[0]] + a[1..][..i] && b[..i + 1] == [b[0]] + b[1..][..i];
        }
        if i :| 0 <= i < |a| && i < |b| && a[..i] == b[..i] && a[i] < b[i] {
          assert i > 0 && a[1..][..i - 1] == a[..i][1..] && b[1..][..i - 1] == b[..i][1..];
          assert a[1..][i - 1] < b[1..][i - 1];
        }
        if a <= b {
          assert a[1..] == b[..|a|][1..] == b[1..][..|a| - 1];
        }
      } else if a[0] < b[0] {
        assert a[..0] == b[..0];
      } else if i :| 0 <= i < |a| && i < |b| && a[..i] == b[..i] && a[i] < b[i] {
        assert i > 0 && a[..i][0] == b[..i][0];
      }
    }
  }

  ghost predicate Sorted(s: seq<string>) {
    forall i, j | 0 <= i < j < |s| :: Leq(s[i], s[j])
  }

  ghost predicate StrictlySorted(s: seq<string>) {
    forall i, j | 0 <= i < j < |s| :: Leq(s[i], s[j]) && s[i] != s[j]
  }

  function Insert(x: string, s: seq<string>): seq<string> {
    if s == [] || Leq(x, s[0]) then [x] + s else [s[0]] + Insert(x, s[1..])
  }

  function SortStrings(s: seq<string>): seq<string> {
    if s == [] then [] else Insert(s[0], SortStrings(s[1..]))
  }

  lemma {:induction false} InsertMember(x: string, s: seq<string>, y: string)
    ensures |Insert(x, s)| == |s| + 1 && (y in Insert(x, s) <==> y == x || y in s)
  {
    if s != [] && !Leq(x, s[0]) {
      InsertMember(x, s[1..], y);
    }
  }

  lemma {:induction false} InsertSorted(x: string, s: seq<string>)
    requires Sorted(s)
    ensures Sorted(Insert(x, s))
  {
    if s != [] {
      LeqOrder(x, s[0], x);
      if Leq(x, s[0]) {
        forall j | 0 <= j < |s| ensures Leq(x, s[j]) { LeqOrder(x, s[0], s[j]); }
      } else {
        InsertSorted(x, s[1..]);
        var rest := Insert(x, s[1..]);
        forall j | 0 <= j < |rest| ensures Leq(s[0], rest[j]) { InsertMember(x, s[1..], rest[j]); }
      }
    }
  }

  lemma {:induction false} SortStringsSorts(s: seq<string>, y: string)
    ensures Sorted(SortStrings(s)) && |SortStrings(s)| == |s| && (y in SortStrings(s) <==> y in s)
  {
    if s != [] {
      SortStringsSorts(s[1..], y);
      InsertSorted(s[0], SortStrings(s[1..]));
      InsertMember(s[0], SortStrings(s[1..]), y);
    }
  }

  // ----- consecutive duplicates -----

  /** The elements of s that differ from the one before, up to n. */
  function Dedup(s: seq<string>, n: nat): seq<string>
    requires n <= |s|
  {
    if n == 0 then [] else Dedup(s, n - 1) + if n == 1 || s[n - 1] != s[n - 2] then [s[n - 1]] else []
  }

  /** On a sorted sequence the result is strictly increasing with the same set. */
  lemma {:induction false} DedupIsTheSet(s: seq<string>, n: nat, y: string)
    requires n <= |s| && Sorted(s)
    ensures StrictlySorted(Dedup(s, n)) && (y in Dedup(s, n) <==> y in s[..n])
    ensures n > 0 ==> Dedup(s, n) != [] && Dedup(s, n)[|Dedup(s, n)| - 1] == s[n - 1]
  {
    if n > 0 {
      DedupIsTheSet(s, n - 1, y);
      assert s[..n] == s[..n - 1] + [s[n - 1]];
      var before := Dedup(s, n - 1);
      if n > 1 && s[n - 1] != s[n - 2] {
        forall i | 0 <= i < |before| ensures Leq(before[i], s[n - 1]) && before[i] != s[n - 1] {
          LeqOrder(before[i], s[n - 2], s[n - 1]);
          LeqOrder(s[n - 2], s[n - 1], s[n - 2]);
          LeqOrder(s[n - 2], before[i], s[n - 2]);
        }
      }
    }
  }

  /** sortDedupFiles: the kept elements are written over the front of the array that
      is still being read. The caller's array is not touched. */
  method SortDedupFiles(input: array<string>) returns (sorted: array<string>, len: nat)
    ensures fresh(sorted) && input[..] == old(input[..]) && len <= sorted.Length
    ensures StrictlySorted(sorted[..len])
    ensures forall f :: f in sorted[..len] <==> f in input[..]
  {
    ghost var s := SortStrings(input[..]);
    sorted := SortedCopy(input);
    len := Compact(sorted);
    assert s[..|s|] == s;
    SortStringsSorts(input[..], "");
    DedupIsTheSet(s, |s|, "");
    forall f ensures f in sorted[..len] <==> f in input[..] {
      SortStringsSorts(input[..], f);
      DedupIsTheSet(s, |s|, f);
    }
  }

  method SortedCopy(input: array<string>) returns (sorted: array<string>)
    ensures fresh(sorted) && sorted[..] == SortStrings(input[..])
  {
    var s := SortStrings(input[..]);
    sorted := new string[|s|](i requires 0 <= i < |s| => s[i]);
  }

  /** The loop over the array's own elements: each read still sees the value the
      array had at the start. */
  method Compact(a: array<string>) returns (len: nat)
    modifies a
    ensures len <= a.Length && a[..len] == Dedup(old(a[..]), a.Length)
    ensures a[len..] == old(a[len..])
  {
    ghost var s := a[..];
    len := 0;
    for i := 0 to a.Length
      invariant len <= i && (i > 0 ==> len > 0)
      invariant a[..len] == Dedup(s, i)
      invariant forall k | len <= k < a.Length :: a[k] == s[k]
      invariant len == i ==> a[..] == s
    {
      var f := a[i];
      assert f == s[i] && (i > 0 ==> a[i - 1] == s[i - 1]);
      if i == 0 || f != a[i - 1] {
        a[len] := f;
        len := len + 1;
      }
    }
  }

  // ----- task ids -----

  newtype byte = x: int | 0 <= x < 256

  /** The symbol a byte becomes: its remainder by 36 in the alphabet a..z, 0..9. */
  function Symbol(b: nat): (c: char)
    ensures 'a' <= c <= 'z' || '0' <= c <= '9'
  {
    var i := b % 36;
    if i < 26 then ('a' as int + i) as char else ('0' as int + i - 26) as char
  }

  /** The alphabet in order: a to z, then 0 to 9, each remainder its own symbol. */
  lemma SymbolsInOrder(b: nat, i: nat, j: nat)
    ensures Symbol(0) == 'a' && Symbol(25) == 'z' && Symbol(26) == '0' && Symbol(35) == '9'
    ensures i < j < 26 ==> Symbol(i) < Symbol(j)
    ensures 26 <= i < j < 36 ==> Symbol(i) < Symbol(j)
    ensures Symbol(b) == Symbol(b % 36)
  {
  }

  /** generateTaskID: the buffer of eight random bytes is overwritten in place, each
      byte read before its symbol is stored. */
  method GenerateTaskID(buf: array<byte>) returns (id: string)
    requires buf.Length == 8
    modifies buf
    ensures |id| == 14 && id[..6] == "bones-"
    ensures forall i | 0 <= i < 8 :: id[6 + i] == Symbol(old(buf[i]) as int)
  {
    for i := 0 to 8
      invariant forall k | 0 <= k < i :: buf[k] as int == Symbol(old(buf[k]) as int) as int < 128
      invariant forall k | i <= k < 8 :: buf[k] == old(buf[k])
    {
      buf[i] := Symbol(buf[i] as int) as int as byte;
    }
    var suffix := seq(8, i requires 0 <= i < 8 reads buf => buf[i] as char);
    id := "bones-" + suffix;
  }

  /** How many of the byte values below n become the symbol c. */
  function Preimages(n: nat, c: char): nat {
    if n == 0 then 0 else Preimages(n - 1, c) + if Symbol(n - 1) == c then 1 else 0
  }

  lemma SymbolsByRemainder(b: nat, r: nat)
    requires r < 36
    ensures Symbol(b) == Symbol(r) <==> b % 36 == r
  {
  }

  lemma QuotientStep(b: nat, r: nat)
    requires r < 36
    ensures (b + 36 - r) / 36 == (b + 35 - r) / 36 + if b % 36 == r then 1 else 0
  {
    var q, x := b / 36, b % 36;
    assert b + 36 - r == 36 * q + (x + 36 - r);
    assert (b + 36 - r) / 36 == q + (x + 36 - r) / 36;
    assert (b + 35 - r) / 36 == q + (x + 35 - r) / 36;
  }

  lemma {:induction false} PreimagesCount(n: nat, r: nat)
    requires r < 36
    ensures Preimages(n, Symbol(r)) == (n + 35 - r) / 36
  {
    if n > 0 {
      PreimagesCount(n - 1, r);
      SymbolsByRemainder(n - 1, r);
      QuotientStep(n - 1, r);
    }
  }

  /** The draw is not quite uniform: 256 is not a multiple of 36, so a, b, c and d
      have eight byte values each and every other symbol seven. */
  lemma FirstFourAreLikelier(r: nat)
    requires r < 36
    ensures Preimages(256, Symbol(r)) == if 'a' <= Symbol(r) <= 'd' then 8 else 7
  {
    PreimagesCount(256, r);
  }
}
