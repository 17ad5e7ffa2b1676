/** Splitting a text at a separator and joining the parts again, as the source's string library does. */
module Splitting {

  const ITEMS: char := '|'

  const FIELDS: char := '_'

  /** The parts of a text with one more character in front: a separator starts a new first part. */
  function Prepend(c: char, parts: seq<string>, sep: char): seq<string>
    requires |parts| >= 1
  {
    if c == sep then [""] + parts else [[c] + parts[0]] + parts[1..]
  }

  function Split(s: string, sep: char): (parts: seq<string>)
    ensures |parts| >= 1
  {
    if s == "" then [""] else Prepend(s[0], Split(s[1..], sep), sep)
  }

  /** Two texts with the separator between them. */
  function Glue(a: string, b: string, sep: char): string {
    a + [sep] + b
  }

  function Join(parts: seq<string>, sep: char): string
    requires |parts| >= 1
  {
    if |parts| == 1 then parts[0] else Glue(parts[0], Join(parts[1..], sep), sep)
  }

  lemma {:induction false} JoinSplit(s: string, sep: char)
    ensures Join(Split(s, sep), sep) == s
  {
    if s != "" {
      JoinSplit(s[1..], sep);
      var rest := Split(s[1..], sep);
      if s[0] == sep {
        assert ([""] + rest)[1..] == rest;
      } else if |rest| > 1 {
        assert ([[s[0]] + rest[0]] + rest[1..])[1..] == rest[1..];
      }
    }
  }

  /** A text without the separator stays one part. */
  lemma {:induction false} SplitPlain(s: string, sep: char)
    requires sep !in s
    ensures Split(s, sep) == [s]
  {
    if s != "" {
      assert s[0] in s && forall x | x in s[1..] :: x in s;
      SplitPlain(s[1..], sep);
      assert [s[0]] + s[1..] == s;
    }
  }

  lemma PrependConcat(c: char, a: seq<string>, b: seq<string>, sep: char)
    requires |a| >= 1
    ensures Prepend(c, a + b, sep) == Prepend(c, a, sep) + b
  {
    assert (a + b)[0] == a[0] && (a + b)[1..] == a[1..] + b;
  }

  lemma SplitCons(c: char, s: string, sep: char)
    ensures Split([c] + s, sep) == Prepend(c, Split(s, sep), sep)
  {
    assert ([c] + s)[0] == c && ([c] + s)[1..] == s;
  }

  /** Splitting across a separator splits both sides. */
  lemma {:induction false} SplitAcross(a: string, b: string, sep: char)
    ensures Split(Glue(a, b, sep), sep) == Split(a, sep) + Split(b, sep)
  {
    if a == "" {
      assert Glue(a, b, sep) == [sep] + b;
      SplitCons(sep, b, sep);
    } else {
      assert Glue(a, b, sep) == [a[0]] + Glue(a[1..], b, sep);
      SplitCons(a[0], Glue(a[1..], b, sep), sep);
      SplitAcross(a[1..], b, sep);
      PrependConcat(a[0], Split(a[1..], sep), Split(b, sep), sep);
    }
  }

  /** A text has more than one part exactly when it holds the separator. */
  lemma {:induction false} SplitsIffHolds(s: string, sep: char)
    ensures |Split(s, sep)| > 1 <==> sep in s
  {
    if s != "" {
      SplitsIffHolds(s[1..], sep);
      assert s == [s[0]] + s[1..];
    }
  }

  lemma {:induction false} SplitHasNoSep(s: string, sep: char)
    ensures forall p | p in Split(s, sep) :: sep !in p
  {
    if s != "" {
      SplitHasNoSep(s[1..], sep);
      var rest := Split(s[1..], sep);
      assert rest[0] in rest;
      forall p | p in Split(s, sep)
        ensures sep !in p
      {
        if s[0] == sep {
          assert p == "" || p in rest;
        } else {
          assert p == [s[0]] + rest[0] || p in rest[1..];
          assert forall x | x in rest[1..] :: x in rest;
        }
      }
    }
  }

  lemma GlueAssociates(a: string, b: string, c: string, sep: char)
    ensures Glue(Glue(a, b, sep), c, sep) == Glue(a, Glue(b, c, sep), sep)
  {
  }

  lemma {:induction false} JoinAppend(parts: seq<string>, last: string, sep: char)
    requires |parts| >= 1
    ensures Join(parts + [last], sep) == Glue(Join(parts, sep), last, sep)
  {
    if |parts| == 1 {
      assert (parts + [last])[1..] == [last];
    } else {
      assert (parts + [last])[1..] == parts[1..] + [last];
      JoinAppend(parts[1..], last, sep);
      GlueAssociates(parts[0], Join(parts[1..], sep), last, sep);
    }
  }

  lemma JoinCons(first: string, rest: seq<string>, sep: char)
    requires |rest| >= 1
    ensures Join([first] + rest, sep) == Glue(first, Join(rest, sep), sep)
  {
    assert ([first] + rest)[1..] == rest;
  }

  /** Joined parts split into themselves again, if none of them holds the separator. */
  lemma {:induction false} SplitJoin(parts: seq<string>, sep: char)
    requires |parts| >= 1 && forall p | p in parts :: sep !in p
    ensures Split(Join(parts, sep), sep) == parts
  {
    assert parts[0] in parts;
    SplitPlain(parts[0], sep);
    if |parts| == 1 {
      assert parts == [parts[0]];
    } else {
      assert forall p | p in parts[1..] :: p in parts;
      SplitJoin(parts[1..], sep);
      SplitAcross(parts[0], Join(parts[1..], sep), sep);
      assert parts == [parts[0]] + parts[1..];
    }
  }
}
