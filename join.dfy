/**
 * Projecting the surviving firms to (name, website), inner-joining them with
 * the links table on the name, and renaming the columns for display.
 */
module Join {
  import opened Schema

  /** A firm row reduced to the two columns the result shows. */
  datatype Listing = Listing(name: Value, website: Value)

  /** A row of the links table: a firm name and the address of its summary. */
  datatype Link = Link(name: Value, link: Value)

  /** A result row under its display labels: Fund Name, Fund Website, IA 50 Summary. */
  datatype DisplayRow = DisplayRow(fundName: Value, fundWebsite: Value, ia50Summary: Value)

  /** The `name` and `website` columns of the firm rows, row by row. */
  function Project(rows: seq<Firm>): (r: seq<Listing>)
    ensures |r| == |rows|
    ensures forall i :: 0 <= i < |rows| ==> r[i].name == rows[i].name && r[i].website == rows[i].website
  {
    if rows == [] then [] else [Listing(rows[0].name, rows[0].website)] + Project(rows[1..])
  }

  /** Number of link rows carrying a name. */
  function LinkCount(links: seq<Link>, k: Value): nat {
    if links == [] then 0 else (if links[0].name == k then 1 else 0) + LinkCount(links[1..], k)
  }

  /** Number of listings carrying a name. */
  function ListingCount(left: seq<Listing>, k: Value): nat {
    if left == [] then 0 else (if left[0].name == k then 1 else 0) + ListingCount(left[1..], k)
  }

  /** Number of result rows whose Fund Name is a name. */
  function RowCount(out: seq<DisplayRow>, k: Value): nat {
    if out == [] then 0 else (if out[0].fundName == k then 1 else 0) + RowCount(out[1..], k)
  }

  /** The joined rows of one listing: one per link row with its name, in link-table order. */
  function LinksFor(l: Listing, links: seq<Link>): (r: seq<DisplayRow>)
    ensures |r| == LinkCount(links, l.name)
  {
    if links == [] then []
    else if links[0].name == l.name then [DisplayRow(l.name, l.website, links[0].link)] + LinksFor(l, links[1..])
    else LinksFor(l, links[1..])
  }

  /** The inner join on `name` with the renamed columns: for each listing, its joined rows. */
  function Merge(left: seq<Listing>, links: seq<Link>): seq<DisplayRow> {
    if left == [] then [] else LinksFor(left[0], links) + Merge(left[1..], links)
  }

  /** The table shown for the surviving firm rows. */
  function Display(rows: seq<Firm>, links: seq<Link>): seq<DisplayRow> {
    Merge(Project(rows), links)
  }

  /** A pair of a listing and a link row that agree on the name, as a display row. */
  ghost predicate JoinedFrom(d: DisplayRow, left: seq<Listing>, links: seq<Link>) {
    exists i, j :: 0 <= i < |left| && 0 <= j < |links| && left[i].name == links[j].name &&
      d == DisplayRow(left[i].name, left[i].website, links[j].link)
  }

  lemma {:induction false} RowCountAppend(a: seq<DisplayRow>, b: seq<DisplayRow>, k: Value)
    ensures RowCount(a + b, k) == RowCount(a, k) + RowCount(b, k)
    decreases |a|
  {
    if a != [] {
      RowCountAppend(a[1..], b, k);
      assert (a + b)[0] == a[0] && (a + b)[1..] == a[1..] + b;
    } else {
      assert a + b == b;
    }
  }

  /** The joined rows of one listing all carry its name. */
  lemma {:induction false} LinksForNames(l: Listing, links: seq<Link>, k: Value)
    ensures RowCount(LinksFor(l, links), k) == if k == l.name then LinkCount(links, k) else 0
    decreases |links|
  {
    if links != [] {
      LinksForNames(l, links[1..], k);
      var rest := LinksFor(l, links[1..]);
      if links[0].name == l.name {
        assert ([DisplayRow(l.name, l.website, links[0].link)] + rest)[1..] == rest;
      }
    }
  }

  lemma {:induction false} LinksForMembers(l: Listing, links: seq<Link>, d: DisplayRow)
    ensures d in LinksFor(l, links) <==>
      exists j :: 0 <= j < |links| && links[j].name == l.name && d == DisplayRow(l.name, l.website, links[j].link)
    decreases |links|
  {
    if links != [] {
      LinksForMembers(l, links[1..], d);
      if d in LinksFor(l, links[1..]) {
        var j :| 0 <= j < |links[1..]| && links[1..][j].name == l.name && d == DisplayRow(l.name, l.website, links[1..][j].link);
        assert links[j + 1] == links[1..][j];
      }
      if exists j :: 0 <= j < |links| && links[j].name == l.name && d == DisplayRow(l.name, l.website, links[j].link) {
        var j :| 0 <= j < |links| && links[j].name == l.name && d == DisplayRow(l.name, l.website, links[j].link);
        if j > 0 {
          assert links[1..][j - 1] == links[j];
        }
      }
    }
  }

  /**
   * Inner join membership: a row is in the result exactly when it is built from a
   * listing and a link row that share the name; a listing with no link row yields nothing.
   */
  lemma {:induction false} MergeMembers(left: seq<Listing>, links: seq<Link>, d: DisplayRow)
    ensures d in Merge(left, links) <==> JoinedFrom(d, left, links)
    decreases |left|
  {
    if left != [] {
      MergeMembers(left[1..], links, d);
      LinksForMembers(left[0], links, d);
      if d in LinksFor(left[0], links) {
        var j :| 0 <= j < |links| && links[j].name == left[0].name && d == DisplayRow(left[0].name, left[0].website, links[j].link);
        assert JoinedFrom(d, left, links);
      }
      if d in Merge(left[1..], links) {
        var i, j :| 0 <= i < |left[1..]| && 0 <= j < |links| && left[1..][i].name == links[j].name &&
          d == DisplayRow(left[1..][i].name, left[1..][i].website, links[j].link);
        assert left[i + 1] == left[1..][i];
      }
      if JoinedFrom(d, left, links) {
        var i, j :| 0 <= i < |left| && 0 <= j < |links| && left[i].name == links[j].name &&
          d == DisplayRow(left[i].name, left[i].website, links[j].link);
        if i > 0 {
          assert left[1..][i - 1] == left[i];
          assert JoinedFrom(d, left[1..], links);
        }
      }
    }
  }

  /** Join multiplicity: a name appears as often as it has listings times link rows. */
  lemma {:induction false} MergeMultiplicity(left: seq<Listing>, links: seq<Link>, k: Value)
    ensures RowCount(Merge(left, links), k) == ListingCount(left, k) * LinkCount(links, k)
    decreases |left|
  {
    if left != [] {
      MergeMultiplicity(left[1..], links, k);
      RowCountAppend(LinksFor(left[0], links), Merge(left[1..], links), k);
      LinksForNames(left[0], links, k);
      var h, t, n := if left[0].name == k then 1 else 0, ListingCount(left[1..], k), LinkCount(links, k);
      assert ListingCount(left, k) == h + t;
      assert (h + t) * n == h * n + t * n;
    }
  }

  /** Number of firm rows carrying a name. */
  function FirmCount(rows: seq<Firm>, k: Value): nat {
    if rows == [] then 0 else (if rows[0].name == k then 1 else 0) + FirmCount(rows[1..], k)
  }

  lemma {:induction false} ProjectKeepsNames(rows: seq<Firm>, k: Value)
    ensures ListingCount(Project(rows), k) == FirmCount(rows, k)
    decreases |rows|
  {
    if rows != [] {
      ProjectKeepsNames(rows[1..], k);
      assert Project(rows)[1..] == Project(rows[1..]);
    }
  }

  /** A name is shown once per (surviving firm row, link row) pair carrying it. */
  lemma DisplayMultiplicity(rows: seq<Firm>, links: seq<Link>, k: Value)
    ensures RowCount(Display(rows, links), k) == FirmCount(rows, k) * LinkCount(links, k)
  {
    MergeMultiplicity(Project(rows), links, k);
    ProjectKeepsNames(rows, k);
  }

  /** Each shown row pairs a surviving firm's name and website with a link of the same name, and every such pair is shown. */
  lemma DisplayMembers(rows: seq<Firm>, links: seq<Link>, d: DisplayRow)
    ensures d in Display(rows, links) <==>
      exists f, l :: f in rows && l in links && f.name == l.name && d == DisplayRow(f.name, f.website, l.link)
  {
    var left := Project(rows);
    MergeMembers(left, links, d);
    if d in Display(rows, links) {
      var i, j :| 0 <= i < |left| && 0 <= j < |links| && left[i].name == links[j].name &&
        d == DisplayRow(left[i].name, left[i].website, links[j].link);
      assert rows[i] in rows && links[j] in links;
    }
    if exists f, l :: f in rows && l in links && f.name == l.name && d == DisplayRow(f.name, f.website, l.link) {
      var f, l :| f in rows && l in links && f.name == l.name && d == DisplayRow(f.name, f.website, l.link);
      var i :| 0 <= i < |rows| && rows[i] == f;
      var j :| 0 <= j < |links| && links[j] == l;
      assert left[i].name == links[j].name;
    }
  }

  /** A firm whose name has no link row contributes no shown row: the join is inner, not left. */
  lemma UnlinkedFirmDropped(rows: seq<Firm>, links: seq<Link>, f: Firm)
    requires forall l :: l in links ==> l.name != f.name
    ensures forall d :: d in Display(rows, links) ==> d.fundName != f.name
  {
    forall d | d in Display(rows, links) ensures d.fundName != f.name {
      DisplayMembers(rows, links, d);
    }
  }

  /** Number of link rows that, joined with one listing, give a display row. */
  function PairsWith(l: Listing, links: seq<Link>, d: DisplayRow): nat {
    if links == [] then 0
    else (if links[0].name == l.name && d == DisplayRow(l.name, l.website, links[0].link) then 1 else 0)
         + PairsWith(l, links[1..], d)
  }

  /** Number of (listing, link row) pairs that share a name and give a display row. */
  function JoinPairs(left: seq<Listing>, links: seq<Link>, d: DisplayRow): nat {
    if left == [] then 0 else PairsWith(left[0], links, d) + JoinPairs(left[1..], links, d)
  }

  lemma {:induction false} LinksForPairs(l: Listing, links: seq<Link>, d: DisplayRow)
    ensures multiset(LinksFor(l, links))[d] == PairsWith(l, links, d)
    decreases |links|
  {
    if links != [] {
      LinksForPairs(l, links[1..], d);
    }
  }

  /** Per-row join multiplicity: each display row occurs once per matching (listing, link row) pair that yields it. */
  lemma {:induction false} MergePairs(left: seq<Listing>, links: seq<Link>, d: DisplayRow)
    ensures multiset(Merge(left, links))[d] == JoinPairs(left, links, d)
    decreases |left|
  {
    if left != [] {
      MergePairs(left[1..], links, d);
      LinksForPairs(left[0], links, d);
    }
  }

  /** Each shown row occurs once per (surviving firm row, link row) pair that yields it. */
  lemma DisplayPairs(rows: seq<Firm>, links: seq<Link>, d: DisplayRow)
    ensures multiset(Display(rows, links))[d] == JoinPairs(Project(rows), links, d)
  {
    MergePairs(Project(rows), links, d);
  }
}
