/** The participant filter: ids from the study statistics and the
    comma-separated text of the filter box are stripped and blank entries
    dropped; an id is kept when some matcher occurs in it, ignoring case
    (inclusive mode), or when none does (exclusive mode); the kept ids are
    sorted. */
module ParticipantFilter {
  import opened Strings

  /** `[x.strip() for x in xs if x.strip()]`. */
  function Clean(xs: seq<string>): (r: seq<string>)
    ensures |r| <= |xs|
    ensures forall k :: 0 <= k < |r| ==> r[k] != []
  {
    if |xs| == 0 then []
    else if Strip(xs[0]) == [] then Clean(xs[1..]) else [Strip(xs[0])] + Clean(xs[1..])
  }

  /** A cleaned entry is the stripped form of some non-blank input entry, and
      every such form is present. */
  lemma {:induction false} CleanMembership(xs: seq<string>, s: string)
    ensures s in Clean(xs) <==> s != [] && exists k :: 0 <= k < |xs| && Strip(xs[k]) == s
  {
    if |xs| > 0 {
      CleanMembership(xs[1..], s);
      if exists k :: 0 <= k < |xs[1..]| && Strip(xs[1..][k]) == s {
        var k :| 0 <= k < |xs[1..]| && Strip(xs[1..][k]) == s;
        assert Strip(xs[k + 1]) == s;
      }
      if s != [] && exists k :: 0 <= k < |xs| && Strip(xs[k]) == s {
        var k :| 0 <= k < |xs| && Strip(xs[k]) == s;
        if k > 0 {
          assert Strip(xs[1..][k - 1]) == s;
        }
      }
    }
  }

  /** The matchers: the filter text split on commas, then cleaned. */
  function Matchers(text: string): (r: seq<string>)
    ensures forall k :: 0 <= k < |r| ==> r[k] != [] && ',' !in r[k]
  {
    MatchersHaveNoComma(Split(text, ','));
    Clean(Split(text, ','))
  }

  lemma {:induction false} MatchersHaveNoComma(pieces: seq<string>)
    requires forall k :: 0 <= k < |pieces| ==> ',' !in pieces[k]
    ensures forall k :: 0 <= k < |Clean(pieces)| ==> ',' !in Clean(pieces)[k]
  {
    if |pieces| > 0 {
      MatchersHaveNoComma(pieces[1..]);
      StripKeeps(pieces[0], ',');
    }
  }

  /** `any(m.lower() in pid.lower() for m in ms)`. */
  predicate AnyMatch(ms: seq<string>, pid: string) {
    if |ms| == 0 then false
    else Contains(Lower(pid), Lower(ms[0])) || AnyMatch(ms[1..], pid)
  }

  lemma {:induction false} AnyMatchIff(ms: seq<string>, pid: string)
    ensures AnyMatch(ms, pid) <==> exists k :: 0 <= k < |ms| && Contains(Lower(pid), Lower(ms[k]))
  {
    if |ms| > 0 {
      AnyMatchIff(ms[1..], pid);
      if exists k :: 0 <= k < |ms| && Contains(Lower(pid), Lower(ms[k])) {
        var k :| 0 <= k < |ms| && Contains(Lower(pid), Lower(ms[k]));
        if k > 0 {
          assert ms[1..][k - 1] == ms[k];
        }
      }
      if AnyMatch(ms[1..], pid) {
        var k :| 0 <= k < |ms[1..]| && Contains(Lower(pid), Lower(ms[1..][k]));
        assert ms[k + 1] == ms[1..][k];
      }
    }
  }

  /** The comprehension of one mode: the ids, in order, that some matcher
      occurs in (`inclusive`) or that no matcher occurs in (otherwise). */
  function Select(ids: seq<string>, ms: seq<string>, inclusive: bool): (r: seq<string>)
    ensures |r| <= |ids|
    ensures forall k :: 0 <= k < |r| ==> r[k] in ids && AnyMatch(ms, r[k]) == inclusive
  {
    if |ids| == 0 then []
    else if AnyMatch(ms, ids[0]) == inclusive then [ids[0]] + Select(ids[1..], ms, inclusive)
    else Select(ids[1..], ms, inclusive)
  }

  /** The two modes split the ids between them, each id to exactly one mode. */
  lemma {:induction false} SelectPartition(ids: seq<string>, ms: seq<string>)
    ensures multiset(Select(ids, ms, true)) + multiset(Select(ids, ms, false)) == multiset(ids)
    ensures multiset(Select(ids, ms, true)) !! multiset(Select(ids, ms, false))
  {
    if |ids| > 0 {
      SelectPartition(ids[1..], ms);
      assert ids == [ids[0]] + ids[1..];
      var x := ids[0];
      var inc, exc := Select(ids[1..], ms, true), Select(ids[1..], ms, false);
      if AnyMatch(ms, x) {
        assert x !in exc;
      } else {
        assert x !in inc;
      }
    }
  }

  lemma {:induction false} SelectMembership(ids: seq<string>, ms: seq<string>, inclusive: bool, x: string)
    ensures x in Select(ids, ms, inclusive) <==> x in ids && AnyMatch(ms, x) == inclusive
  {
    if |ids| > 0 {
      SelectMembership(ids[1..], ms, inclusive, x);
      assert ids == [ids[0]] + ids[1..];
    }
  }

  /** `a` in ascending code-point order (Python's `list.sort()` on strings). */
  predicate Sorted(a: seq<string>) {
    forall i, j :: 0 <= i < j < |a| ==> LessEq(a[i], a[j])
  }

  function Insert(x: string, a: seq<string>): (r: seq<string>)
    ensures multiset(r) == multiset(a) + multiset{x}
  {
    if |a| == 0 then [x]
    else if LessEq(x, a[0]) then [x] + a
    else
      assert a == [a[0]] + a[1..];
      [a[0]] + Insert(x, a[1..])
  }

  lemma {:induction false} InsertSorted(x: string, a: seq<string>)
    requires Sorted(a)
    ensures Sorted(Insert(x, a))
  {
    if |a| > 0 {
      var r := Insert(x, a);
      if LessEq(x, a[0]) {
        forall j | 0 < j < |r| ensures LessEq(r[0], r[j]) {
          LessEqReflexive(a[0]);
          LessEqTransitive(x, a[0], a[j - 1]);
        }
      } else {
        LessEqTotal(x, a[0]);
        InsertSorted(x, a[1..]);
        var t := Insert(x, a[1..]);
        assert r == [a[0]] + t;
        forall j | 0 <= j < |t| ensures LessEq(a[0], t[j]) {
          assert t[j] in multiset(t);
          assert t[j] == x || t[j] in a[1..];
        }
      }
    }
  }

  function Sort(a: seq<string>): (r: seq<string>)
    ensures multiset(r) == multiset(a)
  {
    if |a| == 0 then []
    else
      assert a == [a[0]] + a[1..];
      Insert(a[0], Sort(a[1..]))
  }

  lemma {:induction false} SortSorted(a: seq<string>)
    ensures Sorted(Sort(a))
  {
    if |a| > 0 {
      SortSorted(a[1..]);
      InsertSorted(a[0], Sort(a[1..]));
    }
  }

  /** `_filter_participant_id_list`: clean both lists, apply the mode, sort. */
  function Filter(ids: seq<string>, filterText: string, inclusive: bool): (r: seq<string>)
  {
    Sort(Select(Clean(ids), Matchers(filterText), inclusive))
  }

  /** The result is sorted, and is exactly the cleaned ids some matcher
      occurs in (inclusive) or none does (exclusive), case-insensitively,
      each as often as it was listed. */
  lemma FilterSpec(ids: seq<string>, filterText: string, inclusive: bool)
    ensures var r := Filter(ids, filterText, inclusive);
      var ms := Matchers(filterText);
      && Sorted(r)
      && multiset(r) == multiset(Select(Clean(ids), ms, inclusive))
      && forall x :: x in r <==>
           (x in Clean(ids) && (inclusive <==> exists k :: 0 <= k < |ms| && Contains(Lower(x), Lower(ms[k]))))
  {
    var ms := Matchers(filterText);
    var s := Select(Clean(ids), ms, inclusive);
    SortSorted(s);
    forall x ensures x in Filter(ids, filterText, inclusive) <==>
        (x in Clean(ids) && (inclusive <==> exists k :: 0 <= k < |ms| && Contains(Lower(x), Lower(ms[k])))) {
      assert x in Filter(ids, filterText, inclusive) <==> x in multiset(s);
      SelectMembership(Clean(ids), ms, inclusive, x);
      AnyMatchIff(ms, x);
    }
  }

  /** For the same inputs the two modes are disjoint and together hold every
      cleaned id exactly as often as it was listed. */
  lemma FilterPartition(ids: seq<string>, filterText: string)
    ensures var inc, exc := Filter(ids, filterText, true), Filter(ids, filterText, false);
      && multiset(inc) + multiset(exc) == multiset(Clean(ids))
      && multiset(inc) !! multiset(exc)
  {
    SelectPartition(Clean(ids), Matchers(filterText));
  }

  /** A filter text made of commas and white space only gives no matchers:
      the inclusive mode then keeps nothing and the exclusive mode keeps
      every cleaned id. */
  lemma NoMatchers(ids: seq<string>, filterText: string)
    requires Matchers(filterText) == []
    ensures Filter(ids, filterText, true) == []
    ensures multiset(Filter(ids, filterText, false)) == multiset(Clean(ids))
  {
    SelectPartition(Clean(ids), []);
    assert multiset(Filter(ids, filterText, true)) == multiset{} by {
      SelectNoMatchersInclusive(Clean(ids));
    }
  }

  lemma {:induction false} SelectNoMatchersInclusive(ids: seq<string>)
    ensures Select(ids, [], true) == []
  {
    if |ids| > 0 {
      SelectNoMatchersInclusive(ids[1..]);
    }
  }

  /** Matching ignores case on both sides. */
  lemma MatchIgnoresCase(pid: string, m: string)
    ensures AnyMatch([m], pid) <==> Contains(Lower(pid), Lower(m))
    ensures AnyMatch([m], pid) <==> AnyMatch([Lower(m)], Lower(pid))
  {
    LowerIdempotent(m);
    LowerIdempotent(pid);
  }
}
