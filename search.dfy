/**
 * The search callback: pair the eighteen selections with their columns,
 * narrow the firm table one criterion at a time (stopping when the working
 * set is already empty), then project, join with the links table and rename.
 *
 * The two tables are parameters: they are read, never changed, so repeating
 * a call with the same arguments gives the same result.
 */
module Search {
  import opened Wrappers
  import opened Schema
  import opened Filter
  import opened Join

  /** What the callback hands back: a text, or the rows of the result table. */
  datatype SearchResult = Message(text: string) | Table(rows: seq<DisplayRow>)

  /** Shown before the search button has been clicked. */
  const NotSearched: string := ""

  /** Shown when the working set is empty before some criterion is tested. */
  const NoFirmsFound: string := "No Impact Investment Firms Found"

  /** The click count is truthy: it is set and not zero. */
  predicate Clicked(n: Option<int>) {
    n.Some? && n.value != 0
  }

  /** Pairing inputs with columns position by position, stopping at the shorter list. */
  function Zip(items: seq<Option<Value>>, columns: seq<Column>): (r: seq<Parameter>)
    ensures |r| == if |items| < |columns| then |items| else |columns|
    ensures forall i :: 0 <= i < |r| ==> r[i] == Parameter(columns[i], items[i])
  {
    if items == [] || columns == [] then []
    else [Parameter(columns[0], items[0])] + Zip(items[1..], columns[1..])
  }

  /** The search parameters for a set of selections. */
  function Parameters(s: Selections): (ps: seq<Parameter>)
    ensures |ps| == Arity
    ensures forall i :: 0 <= i < Arity ==> ps[i].column == ColumnOrder[i]
  {
    Zip(InputsList(s), ColumnOrder)
  }

  /** The working set is empty at the start of some iteration of the narrowing loop. */
  predicate EmptiedBeforeSomeStep(rows: seq<Firm>, ps: seq<Parameter>) {
    exists k :: 0 <= k < |ps| && Narrow(rows, ps[..k]) == []
  }

  /** What the callback returns for a click count and a parameter list, stated without the loop. */
  function Outcome(n: Option<int>, ps: seq<Parameter>, firms: seq<Firm>, links: seq<Link>): SearchResult {
    if !Clicked(n) then Message(NotSearched)
    else if EmptiedBeforeSomeStep(firms, ps) then Message(NoFirmsFound)
    else Table(Display(Narrow(firms, ps), links))
  }

  /** What one search returns for the eighteen selections. */
  function Expected(n: Option<int>, s: Selections, firms: seq<Firm>, links: seq<Link>): SearchResult {
    Outcome(n, Parameters(s), firms, links)
  }

  /** Builds the parameter list by appending one (column, selection) pair per position. */
  method BuildParameters(inputs: seq<Option<Value>>, columns: seq<Column>) returns (ps: seq<Parameter>)
    ensures ps == Zip(inputs, columns)
  {
    var m := if |inputs| < |columns| then |inputs| else |columns|;
    ps := [];
    var i := 0;
    while i < m
      invariant 0 <= i <= m
      invariant |ps| == i
      invariant forall j :: 0 <= j < i ==> ps[j] == Parameter(columns[j], inputs[j])
    {
      ps := ps + [Parameter(columns[i], inputs[i])];
      i := i + 1;
    }
  }

  /**
   * The body of the callback once the parameters are built: nothing unless
   * clicked; otherwise narrow criterion by criterion, giving up with the text
   * as soon as the working set is empty before a criterion, then show the join.
   */
  method RunSearch(n: Option<int>, ps: seq<Parameter>, firms: seq<Firm>, links: seq<Link>)
    returns (r: SearchResult)
    ensures r == Outcome(n, ps, firms, links)
    ensures r == Message(NotSearched) || r == Message(NoFirmsFound) || r.Table?
    ensures !Clicked(n) ==> r == Message(NotSearched)
  {
    var working := firms;
    if Clicked(n) {
      var i := 0;
      while i < |ps|
        invariant 0 <= i <= |ps|
        invariant working == Narrow(firms, ps[..i])
        invariant forall k :: 0 <= k < i ==> Narrow(firms, ps[..k]) != []
      {
        if |working| > 0 {
          var p := ps[i];
          if p.item.Some? {
            working := KeepEqual(working, p.column, p.item.value);
          }
        } else {
          r := Message(NoFirmsFound);
          return;
        }
        assert ps[..i + 1][..i] == ps[..i];
        i := i + 1;
      }
      assert ps[..|ps|] == ps;
    } else {
      r := Message(NotSearched);
      return;
    }
    r := Table(Display(working, links));
  }

  /** The search callback for a click count, the eighteen selections and the two tables. */
  method ExecuteSearch(n: Option<int>, s: Selections, firms: seq<Firm>, links: seq<Link>)
    returns (r: SearchResult)
    ensures r == Expected(n, s, firms, links)
    ensures r == Message(NotSearched) || r == Message(NoFirmsFound) || r.Table?
  {
    var ps := BuildParameters(InputsList(s), ColumnOrder);
    r := RunSearch(n, ps, firms, links);
  }

  /** Each column is paired with its own selection, at its fixed position. */
  lemma ParametersArePositional(s: Selections)
    ensures |Parameters(s)| == Arity
    ensures forall i :: 0 <= i < Arity ==> Parameters(s)[i] == Parameter(ColumnOrder[i], SelectionFor(s, ColumnOrder[i]))
    ensures forall c :: Parameters(s)[Position(c)] == Parameter(c, SelectionFor(s, c))
  {
    InputsMatchColumns(s);
  }

  /** Emptiness before some step is emptiness before the last step. */
  lemma EmptiedBeforeLast(rows: seq<Firm>, ps: seq<Parameter>)
    requires ps != []
    ensures EmptiedBeforeSomeStep(rows, ps) <==> Narrow(rows, ps[..|ps| - 1]) == []
  {
    if EmptiedBeforeSomeStep(rows, ps) {
      var k :| 0 <= k < |ps| && Narrow(rows, ps[..k]) == [];
      EmptyStaysEmpty(rows, ps, k, |ps| - 1);
    }
  }

  /**
   * The result is the "no results" text exactly when the button was clicked and
   * no firm meets the first seventeen criteria (the table was empty, or one of
   * those criteria emptied it).
   */
  lemma NoResultsIff(n: Option<int>, s: Selections, firms: seq<Firm>, links: seq<Link>)
    ensures Expected(n, s, firms, links) == Message(NoFirmsFound) <==>
      Clicked(n) && Narrow(firms, Parameters(s)[..Arity - 1]) == []
    ensures Expected(n, s, firms, links) == Message(NoFirmsFound) <==>
      Clicked(n) && forall f :: f in firms ==> !MatchesAll(f, Parameters(s)[..Arity - 1])
  {
    var ps := Parameters(s);
    ParametersArePositional(s);
    EmptiedBeforeLast(firms, ps);
    NarrowIsSubsequence(firms, ps[..Arity - 1]);
    if Narrow(firms, ps[..Arity - 1]) != [] {
      var f := Narrow(firms, ps[..Arity - 1])[0];
      assert f in Narrow(firms, ps[..Arity - 1]);
    }
  }

  /** Only the last criterion emptying the working set gives an empty table rather than the text. */
  lemma LastCriterionGivesEmptyTable(n: Option<int>, s: Selections, firms: seq<Firm>, links: seq<Link>)
    requires Clicked(n)
    requires Narrow(firms, Parameters(s)[..Arity - 1]) != []
    requires Narrow(firms, Parameters(s)) == []
    ensures Expected(n, s, firms, links) == Table([])
  {
    ParametersArePositional(s);
    EmptiedBeforeLast(firms, Parameters(s));
  }

  /** Stopping early agrees with running on: the remaining criteria would leave the set, and the table, empty. */
  lemma ShortCircuitAgrees(rows: seq<Firm>, ps: seq<Parameter>, links: seq<Link>)
    requires EmptiedBeforeSomeStep(rows, ps)
    ensures Narrow(rows, ps) == [] && Display(Narrow(rows, ps), links) == []
  {
    var k :| 0 <= k < |ps| && Narrow(rows, ps[..k]) == [];
    EmptyStaysEmpty(rows, ps, k, |ps|);
    assert ps[..|ps|] == ps;
  }

  /**
   * A result table holds exactly the (firm, link) pairs, agreeing on the name,
   * whose firm meets every selected criterion; it is built from the
   * order-preserving conjunction of the criteria.
   */
  lemma TableIsConjunctionJoin(n: Option<int>, s: Selections, firms: seq<Firm>, links: seq<Link>, d: DisplayRow)
    requires Expected(n, s, firms, links).Table?
    ensures Clicked(n) && Narrow(firms, Parameters(s)[..Arity - 1]) != []
    ensures Expected(n, s, firms, links).rows == Display(Select(firms, Parameters(s)), links)
    ensures d in Expected(n, s, firms, links).rows <==>
      exists f, l :: f in firms && MatchesAll(f, Parameters(s)) && l in links && f.name == l.name &&
        d == DisplayRow(f.name, f.website, l.link)
  {
    var ps := Parameters(s);
    ParametersArePositional(s);
    EmptiedBeforeLast(firms, ps);
    NarrowIsSelect(firms, ps);
    SelectIsFilter(firms, ps);
    DisplayMembers(Select(firms, ps), links, d);
  }

  /** In a result table a name appears once per (matching firm row, link row) pair carrying it. */
  lemma TableMultiplicity(n: Option<int>, s: Selections, firms: seq<Firm>, links: seq<Link>, k: Value)
    requires Expected(n, s, firms, links).Table?
    ensures RowCount(Expected(n, s, firms, links).rows, k) ==
      FirmCount(Select(firms, Parameters(s)), k) * LinkCount(links, k)
  {
    NarrowIsSelect(firms, Parameters(s));
    DisplayMultiplicity(Select(firms, Parameters(s)), links, k);
  }

  /** With nothing selected, a click shows every firm joined with its links (or the text if the table is empty). */
  lemma NoSelectionShowsAll(n: Option<int>, s: Selections, firms: seq<Firm>, links: seq<Link>)
    requires Clicked(n)
    requires forall c :: SelectionFor(s, c).None?
    ensures Expected(n, s, firms, links) ==
      if firms == [] then Message(NoFirmsFound) else Table(Display(firms, links))
  {
    var ps := Parameters(s);
    ParametersArePositional(s);
    UnselectedKeepsAll(firms, ps);
    UnselectedKeepsAll(firms, ps[..Arity - 1]);
    EmptiedBeforeLast(firms, ps);
  }

  /** Selections that keep every choice of `s1` and may add more. */
  predicate Refines(s2: Selections, s1: Selections) {
    forall c :: SelectionFor(s1, c).None? || SelectionFor(s2, c) == SelectionFor(s1, c)
  }

  /** Adding selections can only remove firms from the matches, never add or reorder them. */
  lemma MoreSelectionsFewerFirms(firms: seq<Firm>, s1: Selections, s2: Selections)
    requires Refines(s2, s1)
    ensures Subseq(Select(firms, Parameters(s2)), Select(firms, Parameters(s1)))
    ensures |Select(firms, Parameters(s2))| <= |Select(firms, Parameters(s1))|
  {
    var ps1, ps2 := Parameters(s1), Parameters(s2);
    ParametersArePositional(s1);
    ParametersArePositional(s2);
    forall f | MatchesAll(f, ps2) ensures MatchesAll(f, ps1) {
      forall i | 0 <= i < |ps1| ensures Satisfies(f, ps1[i]) {
        var c := ColumnOrder[i];
        assert Satisfies(f, ps2[i]);
        assert SelectionFor(s1, c).None? || SelectionFor(s2, c) == SelectionFor(s1, c);
      }
    }
    SelectAntitone(firms, ps1, ps2);
    SubseqShorter(Select(firms, ps2), Select(firms, ps1));
  }

  /** In a result table each row occurs once per (matching firm row, link row) pair that yields it. */
  lemma TableRowMultiplicity(n: Option<int>, s: Selections, firms: seq<Firm>, links: seq<Link>, d: DisplayRow)
    requires Expected(n, s, firms, links).Table?
    ensures multiset(Expected(n, s, firms, links).rows)[d] ==
      JoinPairs(Project(Select(firms, Parameters(s))), links, d)
  {
    NarrowIsSelect(firms, Parameters(s));
    DisplayPairs(Select(firms, Parameters(s)), links, d);
  }
}
