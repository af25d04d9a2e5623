/**
 * Narrowing the firm table by the search parameters: one equality filter per
 * selected column, applied in the fixed column order.
 */
module Filter {
  import opened Wrappers
  import opened Schema

  /** One entry of the search parameters: a column and the selection paired with it. */
  datatype Parameter = Parameter(column: Column, item: Option<Value>)

  /** A firm meets a criterion when nothing is selected or its cell equals the selection. */
  predicate Satisfies(f: Firm, p: Parameter) {
    p.item.None? || Cell(f, p.column) == p.item.value
  }

  /** A firm meets every criterion of a parameter list. */
  predicate MatchesAll(f: Firm, ps: seq<Parameter>) {
    forall i :: 0 <= i < |ps| ==> Satisfies(f, ps[i])
  }

  /** `xs` is `ys` with some rows left out and the rest kept in order. */
  predicate Subseq(xs: seq<Firm>, ys: seq<Firm>)
    decreases |ys|
  {
    if xs == [] then true
    else if ys == [] then false
    else (xs[0] == ys[0] && Subseq(xs[1..], ys[1..])) || Subseq(xs, ys[1..])
  }

  /** The rows whose cell under a column equals a value (a boolean-mask selection). */
  function KeepEqual(rows: seq<Firm>, c: Column, v: Value): (r: seq<Firm>)
    ensures |r| <= |rows|
    ensures Subseq(r, rows)
    ensures forall f :: f in r <==> f in rows && Cell(f, c) == v
  {
    if rows == [] then []
    else if Cell(rows[0], c) == v then [rows[0]] + KeepEqual(rows[1..], c, v)
    else KeepEqual(rows[1..], c, v)
  }

  /** The body of one iteration on a non-empty working set: filter only when something is selected. */
  function Step(rows: seq<Firm>, p: Parameter): (r: seq<Firm>)
    ensures p.item.None? ==> r == rows
    ensures |r| <= |rows| && Subseq(r, rows)
    ensures forall f :: f in r <==> f in rows && Satisfies(f, p)
  {
    match p.item
    case None => SubseqOfSelf(rows); rows
    case Some(v) => KeepEqual(rows, p.column, v)
  }

  /** The working set after the criteria of `ps`, one after another. */
  function Narrow(rows: seq<Firm>, ps: seq<Parameter>): (r: seq<Firm>)
    ensures |r| <= |rows|
    ensures forall f :: f in r ==> f in rows
    decreases |ps|
  {
    if ps == [] then rows else Step(Narrow(rows, ps[..|ps| - 1]), ps[|ps| - 1])
  }

  /** Reference definition: the rows meeting all criteria at once, in table order. */
  function Select(rows: seq<Firm>, ps: seq<Parameter>): seq<Firm> {
    if rows == [] then []
    else (if MatchesAll(rows[0], ps) then [rows[0]] else []) + Select(rows[1..], ps)
  }

  lemma {:induction false} SubseqOfSelf(rows: seq<Firm>)
    ensures Subseq(rows, rows)
    decreases |rows|
  {
    if rows != [] {
      SubseqOfSelf(rows[1..]);
    }
  }

  lemma {:induction false} SubseqShorter(xs: seq<Firm>, ys: seq<Firm>)
    requires Subseq(xs, ys)
    ensures |xs| <= |ys|
    decreases |ys|
  {
    if xs != [] {
      if xs[0] == ys[0] && Subseq(xs[1..], ys[1..]) {
        SubseqShorter(xs[1..], ys[1..]);
      } else {
        SubseqShorter(xs, ys[1..]);
      }
    }
  }

  /** The conjunction keeps exactly the qualifying rows, each as often as the table holds it, in table order. */
  lemma {:induction false} SelectIsFilter(rows: seq<Firm>, ps: seq<Parameter>)
    ensures Subseq(Select(rows, ps), rows)
    ensures forall f :: multiset(Select(rows, ps))[f] == if MatchesAll(f, ps) then multiset(rows)[f] else 0
    ensures forall f :: f in Select(rows, ps) <==> f in rows && MatchesAll(f, ps)
    decreases |rows|
  {
    if rows != [] {
      SelectIsFilter(rows[1..], ps);
      assert rows == [rows[0]] + rows[1..];
      if MatchesAll(rows[0], ps) {
        assert Select(rows, ps)[1..] == Select(rows[1..], ps);
      } else {
        assert Select(rows, ps) == Select(rows[1..], ps);
      }
    }
  }

  /** Filtering the conjunction of `ps` by one more criterion is the conjunction of `ps + [p]`. */
  lemma {:induction false} StepOfSelect(rows: seq<Firm>, ps: seq<Parameter>, p: Parameter)
    ensures Step(Select(rows, ps), p) == Select(rows, ps + [p])
    decreases |rows|
  {
    forall f ensures MatchesAll(f, ps + [p]) <==> MatchesAll(f, ps) && Satisfies(f, p) {
      if MatchesAll(f, ps) && Satisfies(f, p) {
        forall i | 0 <= i < |ps + [p]| ensures Satisfies(f, (ps + [p])[i]) {
          if i < |ps| { assert (ps + [p])[i] == ps[i]; }
        }
      }
      if MatchesAll(f, ps + [p]) {
        assert Satisfies(f, (ps + [p])[|ps|]);
        forall i | 0 <= i < |ps| ensures Satisfies(f, ps[i]) {
          assert (ps + [p])[i] == ps[i];
        }
      }
    }
    if rows != [] {
      StepOfSelect(rows[1..], ps, p);
      var tail := Select(rows[1..], ps);
      if MatchesAll(rows[0], ps) {
        assert Select(rows, ps) == [rows[0]] + tail;
        match p.item {
          case None =>
          case Some(v) =>
            assert ([rows[0]] + tail)[1..] == tail;
        }
      } else {
        assert Select(rows, ps) == tail;
      }
    }
  }

  /** Applying the criteria one at a time yields the rows meeting all of them: the search is a conjunction. */
  lemma {:induction false} NarrowIsSelect(rows: seq<Firm>, ps: seq<Parameter>)
    ensures Narrow(rows, ps) == Select(rows, ps)
    decreases |ps|
  {
    if ps == [] {
      SelectAll(rows);
    } else {
      var init := ps[..|ps| - 1];
      NarrowIsSelect(rows, init);
      StepOfSelect(rows, init, ps[|ps| - 1]);
      assert init + [ps[|ps| - 1]] == ps;
    }
  }

  /** With no criteria every row is kept. */
  lemma {:induction false} SelectAll(rows: seq<Firm>)
    ensures Select(rows, []) == rows
    decreases |rows|
  {
    if rows != [] {
      SelectAll(rows[1..]);
      assert rows == [rows[0]] + rows[1..];
    }
  }

  /** The working set is always an order-preserving subsequence of the table, holding exactly the rows meeting every criterion so far. */
  lemma NarrowIsSubsequence(rows: seq<Firm>, ps: seq<Parameter>)
    ensures Subseq(Narrow(rows, ps), rows) && |Narrow(rows, ps)| <= |rows|
    ensures forall f :: f in Narrow(rows, ps) <==> f in rows && MatchesAll(f, ps)
  {
    NarrowIsSelect(rows, ps);
    SelectIsFilter(rows, ps);
    SubseqShorter(Narrow(rows, ps), rows);
  }

  /** One more criterion can only shrink the working set, keeping its order. */
  lemma NarrowShrinks(rows: seq<Firm>, ps: seq<Parameter>, p: Parameter)
    ensures Subseq(Narrow(rows, ps + [p]), Narrow(rows, ps))
    ensures |Narrow(rows, ps + [p])| <= |Narrow(rows, ps)|
  {
    assert (ps + [p])[..|ps|] == ps;
  }

  /** Once the working set is empty, later criteria leave it empty. */
  lemma {:induction false} EmptyStaysEmpty(rows: seq<Firm>, ps: seq<Parameter>, j: nat, k: nat)
    requires j <= k <= |ps|
    requires Narrow(rows, ps[..j]) == []
    ensures Narrow(rows, ps[..k]) == []
    decreases k
  {
    if j < k {
      EmptyStaysEmpty(rows, ps, j, k - 1);
      assert ps[..k][..k - 1] == ps[..k - 1];
    }
  }

  /** Criteria without a selection do not narrow at all. */
  lemma {:induction false} UnselectedKeepsAll(rows: seq<Firm>, ps: seq<Parameter>)
    requires forall i :: 0 <= i < |ps| ==> ps[i].item.None?
    ensures Narrow(rows, ps) == rows
    decreases |ps|
  {
    if ps != [] {
      UnselectedKeepsAll(rows, ps[..|ps| - 1]);
    }
  }

  /** A firm meeting every criterion of `qs` meets every one of `ps`: then the `qs` result is a subsequence of the `ps` result. */
  lemma {:induction false} SelectAntitone(rows: seq<Firm>, ps: seq<Parameter>, qs: seq<Parameter>)
    requires forall f :: MatchesAll(f, qs) ==> MatchesAll(f, ps)
    ensures Subseq(Select(rows, qs), Select(rows, ps))
    decreases |rows|
  {
    if rows != [] {
      SelectAntitone(rows[1..], ps, qs);
      var tq, tp := Select(rows[1..], qs), Select(rows[1..], ps);
      if MatchesAll(rows[0], qs) {
        assert Select(rows, qs) == [rows[0]] + tq && Select(rows, ps) == [rows[0]] + tp;
        assert ([rows[0]] + tq)[1..] == tq && ([rows[0]] + tp)[1..] == tp;
      } else if MatchesAll(rows[0], ps) {
        assert Select(rows, qs) == tq;
        assert Select(rows, ps) == [rows[0]] + tp;
        SubseqPrepend(tq, tp, rows[0]);
      } else {
        assert Select(rows, qs) == tq && Select(rows, ps) == tp;
      }
    }
  }

  lemma SubseqPrepend(xs: seq<Firm>, ys: seq<Firm>, y: Firm)
    requires Subseq(xs, ys)
    ensures Subseq(xs, [y] + ys)
  {
    assert ([y] + ys)[1..] == ys;
  }

  /** The criteria combine by conjunction, so the order in which they are listed does not matter. */
  lemma {:induction false} SelectOrderIrrelevant(rows: seq<Firm>, ps: seq<Parameter>, qs: seq<Parameter>)
    requires forall p :: p in ps <==> p in qs
    ensures Select(rows, ps) == Select(rows, qs)
    decreases |rows|
  {
    if rows != [] {
      SelectOrderIrrelevant(rows[1..], ps, qs);
      var f := rows[0];
      if MatchesAll(f, ps) {
        forall i | 0 <= i < |qs| ensures Satisfies(f, qs[i]) {
          assert qs[i] in ps;
        }
      }
      if MatchesAll(f, qs) {
        forall i | 0 <= i < |ps| ensures Satisfies(f, ps[i]) {
          assert ps[i] in qs;
        }
      }
    }
  }

  /** Listing the same criteria in another order gives the same working set. */
  lemma NarrowOrderIrrelevant(rows: seq<Firm>, ps: seq<Parameter>, qs: seq<Parameter>)
    requires forall p :: p in ps <==> p in qs
    ensures Narrow(rows, ps) == Narrow(rows, qs)
  {
    NarrowIsSelect(rows, ps);
    NarrowIsSelect(rows, qs);
    SelectOrderIrrelevant(rows, ps, qs);
  }
}
