/** Record framing: a text is cut at every separator (`str.split`) and empty pieces are dropped. */
module Framing {
  import opened Values

  /** `s.split(sep)`. */
  function Split<T(==)>(s: seq<T>, sep: T): (pieces: seq<seq<T>>)
    ensures |pieces| > 0
  {
    if s == [] then [[]]
    else
      var rest := Split(s[1..], sep);
      if s[0] == sep then [[]] + rest else Prepend(s[0], rest)
  }

  function Prepend<T>(c: T, pieces: seq<seq<T>>): seq<seq<T>>
    requires |pieces| > 0
  {
    [[c] + pieces[0]] + pieces[1..]
  }

  /** Two piece lists run together: the last piece of `p` and the first of `q` become one. */
  function Glue<T>(p: seq<seq<T>>, q: seq<seq<T>>): seq<seq<T>>
    requires |p| > 0 && |q| > 0
  {
    p[..|p| - 1] + [p[|p| - 1] + q[0]] + q[1..]
  }

  /** `sep.join(pieces)`. */
  function Join<T>(pieces: seq<seq<T>>, sep: T): seq<T>
    requires |pieces| > 0
  {
    if |pieces| == 1 then pieces[0] else pieces[0] + [sep] + Join(pieces[1..], sep)
  }

  function NonEmpty<T>(pieces: seq<seq<T>>): seq<seq<T>> {
    if pieces == [] then [] else Kept(pieces[0]) + NonEmpty(pieces[1..])
  }

  function Kept<T>(piece: seq<T>): seq<seq<T>> {
    if |piece| == 0 then [] else [piece]
  }

  function Records<T(==)>(s: seq<T>, sep: T): seq<seq<T>> {
    NonEmpty(Split(s, sep))
  }

  /** `s.index(sep)`. */
  function IndexOf<T(==)>(s: seq<T>, sep: T): (i: nat)
    requires sep in s
    ensures i < |s| && s[i] == sep && sep !in s[..i]
  {
    if s[0] == sep then 0
    else
      var i := 1 + IndexOf(s[1..], sep);
      assert s[..i] == [s[0]] + s[1..][..i - 1];
      i
  }

  /** Where `a` ends and `b` begins no record is open on both sides. */
  predicate CleanCut<T(==)>(a: seq<T>, b: seq<T>, sep: T) {
    a == [] || a[|a| - 1] == sep || b == [] || b[0] == sep
  }

  /** Joining is the inverse of splitting, and splitting leaves no separator behind. */
  lemma {:induction false} JoinSplit<T>(s: seq<T>, sep: T)
    ensures Join(Split(s, sep), sep) == s
    ensures forall i :: 0 <= i < |Split(s, sep)| ==> sep !in Split(s, sep)[i]
  {
    if s != [] {
      JoinSplit(s[1..], sep);
      var rest := Split(s[1..], sep);
      var all := Split(s, sep);
      if s[0] == sep {
        assert all[1..] == rest;
      } else {
        assert all[1..] == rest[1..];
        forall i | 0 <= i < |all| ensures sep !in all[i] {
          if i > 0 { assert all[i] == rest[i]; }
        }
      }
      assert Join(all, sep) == [s[0]] + Join(rest, sep);
    }
  }

  lemma GluePrepend<T>(c: T, p: seq<seq<T>>, q: seq<seq<T>>)
    requires |p| > 0 && |q| > 0
    ensures Glue(Prepend(c, p), q) == Prepend(c, Glue(p, q))
  {
    var left, right := Glue(Prepend(c, p), q), Prepend(c, Glue(p, q));
    if |p| == 1 {
      assert ([c] + p[0]) + q[0] == [c] + (p[0] + q[0]);
    }
    assert |left| == |right|;
    assert forall i :: 0 <= i < |left| ==> left[i] == right[i];
  }

  lemma GlueSeparator<T>(p: seq<seq<T>>, q: seq<seq<T>>)
    requires |p| > 0 && |q| > 0
    ensures Glue([[]] + p, q) == [[]] + Glue(p, q)
  {
    assert ([[]] + p)[..|p|] == [[]] + p[..|p| - 1];
  }

  /** The split of a concatenation glues the two splits together. */
  lemma {:induction false} SplitConcat<T>(a: seq<T>, b: seq<T>, sep: T)
    ensures Split(a + b, sep) == Glue(Split(a, sep), Split(b, sep))
  {
    var q := Split(b, sep);
    if a == [] {
      assert a + b == b;
      assert [] + q[0] == q[0];
      assert Glue([[]], q) == [q[0]] + q[1..];
    } else {
      SplitConcat(a[1..], b, sep);
      assert (a + b)[1..] == a[1..] + b;
      GluePrepend(a[0], Split(a[1..], sep), q);
      GlueSeparator(Split(a[1..], sep), q);
    }
  }

  lemma {:induction false} SplitPlain<T>(h: seq<T>, sep: T)
    requires sep !in h
    ensures Split(h, sep) == [h]
  {
    if h != [] {
      SplitPlain(h[1..], sep);
      assert h[0] in h;
      assert [h[0]] + h[1..] == h;
    }
  }

  /** Splitting is the only way back: separator-free pieces survive a join and a split. */
  lemma {:induction false} SplitJoin<T>(pieces: seq<seq<T>>, sep: T)
    requires |pieces| > 0 && forall i :: 0 <= i < |pieces| ==> sep !in pieces[i]
    ensures Split(Join(pieces, sep), sep) == pieces
  {
    SplitPlain(pieces[0], sep);
    if |pieces| > 1 {
      SplitJoin(pieces[1..], sep);
      SplitAtSeparator(pieces[0], Join(pieces[1..], sep), sep);
    }
  }

  lemma SplitAtSeparator<T>(a: seq<T>, b: seq<T>, sep: T)
    ensures Split(a + [sep] + b, sep) == Split(a, sep) + Split(b, sep)
  {
    SplitConcat(a, [sep] + b, sep);
    assert a + [sep] + b == a + ([sep] + b);
    assert ([sep] + b)[1..] == b;
    var sa := Split(a, sep);
    assert sa[|sa| - 1] + [] == sa[|sa| - 1];
  }

  lemma {:induction false} NonEmptyConcat<T>(p: seq<seq<T>>, q: seq<seq<T>>)
    ensures NonEmpty(p + q) == NonEmpty(p) + NonEmpty(q)
  {
    if p == [] {
      assert p + q == q;
    } else {
      NonEmptyConcat(p[1..], q);
      assert (p + q)[1..] == p[1..] + q;
      Regroup(Kept(p[0]), NonEmpty(p[1..]), NonEmpty(q));
    }
  }

  lemma {:induction false} NonEmptyMembers<T>(p: seq<seq<T>>)
    ensures forall r :: r in NonEmpty(p) <==> r in p && r != []
  {
    if p != [] {
      NonEmptyMembers(p[1..]);
      assert p == [p[0]] + p[1..];
    }
  }

  lemma RecordsAtSeparator<T>(a: seq<T>, b: seq<T>, sep: T)
    ensures Records(a + [sep] + b, sep) == Records(a, sep) + Records(b, sep)
  {
    SplitAtSeparator(a, b, sep);
    NonEmptyConcat(Split(a, sep), Split(b, sep));
  }

  lemma {:induction false} FirstPieceEmpty<T>(b: seq<T>, sep: T)
    ensures Split(b, sep)[0] == [] <==> b == [] || b[0] == sep
  {
  }

  lemma {:induction false} LastPieceEmpty<T>(a: seq<T>, sep: T)
    ensures var sa := Split(a, sep); sa[|sa| - 1] == [] <==> a == [] || a[|a| - 1] == sep
  {
    if a != [] {
      LastPieceEmpty(a[1..], sep);
    }
  }

  lemma NonEmptyGlue<T>(p: seq<seq<T>>, q: seq<seq<T>>)
    requires |p| > 0 && |q| > 0
    ensures NonEmpty(Glue(p, q)) == NonEmpty(p[..|p| - 1]) + NonEmpty([p[|p| - 1] + q[0]]) + NonEmpty(q[1..])
    ensures NonEmpty(p) == NonEmpty(p[..|p| - 1]) + NonEmpty([p[|p| - 1]])
    ensures NonEmpty(q) == NonEmpty([q[0]]) + NonEmpty(q[1..])
  {
    var init, last, joint := p[..|p| - 1], [p[|p| - 1]], [p[|p| - 1] + q[0]];
    NonEmptyConcat(init + joint, q[1..]);
    NonEmptyConcat(init, joint);
    NonEmptyConcat(init, last);
    assert init + last == p;
    NonEmptyConcat([q[0]], q[1..]);
    assert [q[0]] + q[1..] == q;
  }

  lemma NonEmptySingle<T>(x: seq<T>)
    ensures NonEmpty([x]) == if x == [] then [] else [x]
  {
    assert [x][1..] == [];
  }

  lemma GlueTears<T>(p: seq<seq<T>>, q: seq<seq<T>>)
    requires |p| > 0 && |q| > 0
    ensures p[|p| - 1] == [] || q[0] == [] ==> NonEmpty(Glue(p, q)) == NonEmpty(p) + NonEmpty(q)
    ensures p[|p| - 1] != [] && q[0] != [] ==> |NonEmpty(Glue(p, q))| == |NonEmpty(p)| + |NonEmpty(q)| - 1
  {
    NonEmptyGlue(p, q);
    var last, first := p[|p| - 1], q[0];
    var x, y := NonEmpty(p[..|p| - 1]), NonEmpty(q[1..]);
    NonEmptySingle(last);
    NonEmptySingle(first);
    NonEmptySingle(last + first);
    if last == [] {
      assert last + first == first;
      assert x + [] == x;
      Regroup(x, NonEmpty([first]), y);
    } else if first == [] {
      assert last + first == last;
      assert [] + y == y;
    } else {
      assert |NonEmpty([last + first])| == |NonEmpty([first])| == |NonEmpty([last])| == 1;
    }
  }

  /** Record framing is a homomorphism exactly at clean cuts: anywhere else one record is torn in two. */
  lemma RecordsConcat<T>(a: seq<T>, b: seq<T>, sep: T)
    ensures Records(a + b, sep) == Records(a, sep) + Records(b, sep) <==> CleanCut(a, b, sep)
    ensures !CleanCut(a, b, sep) ==> |Records(a + b, sep)| == |Records(a, sep)| + |Records(b, sep)| - 1
  {
    SplitConcat(a, b, sep);
    FirstPieceEmpty(b, sep);
    LastPieceEmpty(a, sep);
    GlueTears(Split(a, sep), Split(b, sep));
  }

  /** One non-empty record followed by the separator is read back as itself. */
  lemma RecordsOfOne<T>(h: seq<T>, rest: seq<T>, sep: T)
    requires h != [] && sep !in h
    ensures Records(h + [sep] + rest, sep) == [h] + Records(rest, sep)
    ensures IndexOf(h + [sep] + rest, sep) == |h|
    ensures (h + [sep] + rest)[|h| + 1..] == rest
  {
    RecordsAtSeparator(h, rest, sep);
    SplitPlain(h, sep);
    NonEmptySingle(h);
    var s := h + [sep] + rest;
    assert s[..|h|] == h && s[|h|] == sep;
    FirstIndex(s, |h|, sep);
  }

  lemma {:induction false} FirstIndex<T>(s: seq<T>, i: nat, sep: T)
    requires i < |s| && s[i] == sep && sep !in s[..i]
    ensures sep in s && IndexOf(s, sep) == i
  {
    if i > 0 {
      assert s[0] in s[..i];
      assert s[1..][..i - 1] == s[1..i];
      assert s[..i] == [s[0]] + s[1..i];
      FirstIndex(s[1..], i - 1, sep);
    }
  }
}
