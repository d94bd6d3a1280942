/** Slash-separated paths: strings.Split and strings.Join on "/", and prefixes
    compared as strings against prefixes compared as components. */
module Paths {
  function Split(p: string): (parts: seq<string>)
    ensures |parts| >= 1
  {
    if p == "" then [""]
    else
      var rest := Split(p[1..]);
      if p[0] == '/' then [""] + rest else [[p[0]] + rest[0]] + rest[1..]
  }

  function Join(parts: seq<string>): string
    requires |parts| >= 1
  {
    if |parts| == 1 then parts[0] else parts[0] + "/" + Join(parts[1..])
  }

  predicate Plain(parts: seq<string>) {
    forall i | 0 <= i < |parts| :: '/' !in parts[i]
  }

  lemma {:induction false} SplitPlain(p: string)
    ensures Plain(Split(p))
  {
    if p != "" {
      SplitPlain(p[1..]);
    }
  }

  lemma {:induction false} JoinSplit(p: string)
    ensures Join(Split(p)) == p
  {
    if p != "" {
      JoinSplit(p[1..]);
      var rest := Split(p[1..]);
      if p[0] == '/' {
        assert ([""] + rest)[1..] == rest;
      } else {
        assert ([[p[0]] + rest[0]] + rest[1..])[1..] == rest[1..];
      }
    }
  }

  lemma {:induction false} SplitConcat(a: string, b: string)
    ensures Split(a + "/" + b) == Split(a) + Split(b)
  {
    if a == "" {
      assert (a + "/" + b)[1..] == b;
    } else {
      assert (a + "/" + b)[1..] == a[1..] + "/" + b;
      SplitConcat(a[1..], b);
    }
  }

  lemma {:induction false} SplitOne(a: string)
    requires '/' !in a
    ensures Split(a) == [a]
  {
    if a != "" {
      SplitOne(a[1..]);
      assert a[0] in a && a == [a[0]] + a[1..];
    }
  }

  lemma {:induction false} SplitJoin(parts: seq<string>)
    requires |parts| >= 1 && Plain(parts)
    ensures Split(Join(parts)) == parts
  {
    SplitOne(parts[0]);
    if |parts| > 1 {
      SplitJoin(parts[1..]);
      SplitConcat(parts[0], Join(parts[1..]));
    }
  }

  lemma {:induction false} JoinAppend(a: seq<string>, b: seq<string>)
    requires |a| >= 1 && |b| >= 1
    ensures Join(a + b) == Join(a) + "/" + Join(b)
  {
    if |a| == 1 {
      assert (a + b)[1..] == b;
    } else {
      assert (a + b)[1..] == a[1..] + b;
      JoinAppend(a[1..], b);
    }
  }

  lemma StringPrefixIsComponents(a: string, b: string)
    requires b + "/" <= a + "/"
    ensures Split(b) <= Split(a)
  {
    if |a| == |b| {
      assert a == (a + "/")[..|a|] == (b + "/")[..|b|] == b;
    } else {
      var c := a[|b| + 1..];
      assert a[..|b| + 1] == (a + "/")[..|b| + 1] == b + "/";
      assert a == b + "/" + c;
      SplitConcat(b, c);
    }
  }

  lemma ComponentsAreStringPrefix(a: string, b: string)
    requires Split(b) <= Split(a)
    ensures b + "/" <= a + "/"
  {
    var rest := Split(a)[|Split(b)|..];
    assert Split(a) == Split(b) + rest;
    JoinSplit(a);
    JoinSplit(b);
    if rest == [] {
      assert Split(a) == Split(b);
    } else {
      JoinAppend(Split(b), rest);
      assert a == b + "/" + Join(rest);
    }
  }

  /** "b/" is a string prefix of "a/" exactly when b's components begin a's:
      "src/foo" begins "src/foo/bar" and not "src/foobar". */
  lemma PrefixIsComponentPrefix(a: string, b: string)
    ensures b + "/" <= a + "/" <==> Split(b) <= Split(a)
  {
    if b + "/" <= a + "/" {
      StringPrefixIsComponents(a, b);
    }
    if Split(b) <= Split(a) {
      ComponentsAreStringPrefix(a, b);
    }
  }
}
