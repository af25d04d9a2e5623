/**
 * The shape of the firm table and of the eighteen user selections.
 *
 * Cells are compared only for equality, so a cell value is an opaque type
 * with equality; names, websites and links are cell values too.
 */
module Schema {
  import opened Wrappers

  /** A cell of either table: compared only with `==`. */
  type Value(==, !new)

  /** The eighteen filterable columns of the firm table. */
  datatype Column =
    | TotalAum | AssetClass | TargetReturnBm | TargetReturnPerf | TotalInvestors
    | CapitalFromTop3 | FirmHq | YearsInOp | LeadTotalImpactExp | PctInvestWomen
    | PctInvestPoc | PctSrMgmtWomen | PctSrMgmtPoc | MainSdg | SecondarySdg
    | PctAumImpact | ImpactVerified | ImpactReported

  /** The header of a column in the firm table file. */
  function Header(c: Column): string {
    match c
    case TotalAum => "total_aum"
    case AssetClass => "asset_class"
    case TargetReturnBm => "target_return_bm"
    case TargetReturnPerf => "target_return_perf"
    case TotalInvestors => "total_investors"
    case CapitalFromTop3 => "capital_from_top_3"
    case FirmHq => "firm_hq"
    case YearsInOp => "years_in_op"
    case LeadTotalImpactExp => "lead_total_impact_exp"
    case PctInvestWomen => "pct_invest_women"
    case PctInvestPoc => "pct_invest_poc"
    case PctSrMgmtWomen => "pct_sr_mgmt_women"
    case PctSrMgmtPoc => "pct_sr_mgmt_poc"
    case MainSdg => "main_sdg"
    case SecondarySdg => "secondary_sdg"
    case PctAumImpact => "pct_aum_impact"
    case ImpactVerified => "impact_verified"
    case ImpactReported => "impact_reported"
  }

  /** The fixed order in which the search applies the criteria. */
  const ColumnOrder: seq<Column> := [
    TotalAum, AssetClass, TargetReturnBm, TargetReturnPerf, TotalInvestors,
    CapitalFromTop3, FirmHq, YearsInOp, LeadTotalImpactExp, PctInvestWomen,
    PctInvestPoc, PctSrMgmtWomen, PctSrMgmtPoc, MainSdg, SecondarySdg,
    PctAumImpact, ImpactVerified, ImpactReported]

  /** Where a column stands in the criteria order. */
  function Position(c: Column): (i: nat)
    ensures i < |ColumnOrder| && ColumnOrder[i] == c
  {
    match c
    case TotalAum => 0
    case AssetClass => 1
    case TargetReturnBm => 2
    case TargetReturnPerf => 3
    case TotalInvestors => 4
    case CapitalFromTop3 => 5
    case FirmHq => 6
    case YearsInOp => 7
    case LeadTotalImpactExp => 8
    case PctInvestWomen => 9
    case PctInvestPoc => 10
    case PctSrMgmtWomen => 11
    case PctSrMgmtPoc => 12
    case MainSdg => 13
    case SecondarySdg => 14
    case PctAumImpact => 15
    case ImpactVerified => 16
    case ImpactReported => 17
  }

  /** Number of criteria (and of selection inputs) the search takes. */
  const Arity: nat := 18

  /** A row of the firm table: its identity, its website and the eighteen filterable cells. */
  datatype Firm = Firm(
    name: Value, website: Value,
    totalAum: Value, assetClass: Value, targetReturnBm: Value, targetReturnPerf: Value,
    totalInvestors: Value, capitalFromTop3: Value, firmHq: Value, yearsInOp: Value,
    leadTotalImpactExp: Value, pctInvestWomen: Value, pctInvestPoc: Value,
    pctSrMgmtWomen: Value, pctSrMgmtPoc: Value, mainSdg: Value, secondarySdg: Value,
    pctAumImpact: Value, impactVerified: Value, impactReported: Value)

  /** The cell of a firm row under a column (`row[column]`). */
  function Cell(f: Firm, c: Column): Value {
    match c
    case TotalAum => f.totalAum
    case AssetClass => f.assetClass
    case TargetReturnBm => f.targetReturnBm
    case TargetReturnPerf => f.targetReturnPerf
    case TotalInvestors => f.totalInvestors
    case CapitalFromTop3 => f.capitalFromTop3
    case FirmHq => f.firmHq
    case YearsInOp => f.yearsInOp
    case LeadTotalImpactExp => f.leadTotalImpactExp
    case PctInvestWomen => f.pctInvestWomen
    case PctInvestPoc => f.pctInvestPoc
    case PctSrMgmtWomen => f.pctSrMgmtWomen
    case PctSrMgmtPoc => f.pctSrMgmtPoc
    case MainSdg => f.mainSdg
    case SecondarySdg => f.secondarySdg
    case PctAumImpact => f.pctAumImpact
    case ImpactVerified => f.impactVerified
    case ImpactReported => f.impactReported
  }

  /** The eighteen selection widgets' current values, named as the search's parameters. */
  datatype Selections = Selections(
    aum: Option<Value>, assetClass: Option<Value>, returnBm: Option<Value>,
    returnPerf: Option<Value>, totalInvestors: Option<Value>, capitalTop: Option<Value>,
    firmHq: Option<Value>, yearsOp: Option<Value>, leaderImpact: Option<Value>,
    investWomen: Option<Value>, investPoc: Option<Value>, mgmtWomen: Option<Value>,
    mgmtPoc: Option<Value>, mainSdg: Option<Value>, secondarySdg: Option<Value>,
    aumImpact: Option<Value>, impactVerify: Option<Value>, impactReport: Option<Value>)

  /** The selections listed in the order the search lists its inputs. */
  function InputsList(s: Selections): (inputs: seq<Option<Value>>)
    ensures |inputs| == Arity
  {
    [s.aum, s.assetClass, s.returnBm, s.returnPerf, s.totalInvestors, s.capitalTop,
     s.firmHq, s.yearsOp, s.leaderImpact, s.investWomen, s.investPoc, s.mgmtWomen, s.mgmtPoc,
     s.mainSdg, s.secondarySdg, s.aumImpact, s.impactVerify, s.impactReport]
  }

  /** Which selection constrains a column: the reference pairing, one column at a time. */
  function SelectionFor(s: Selections, c: Column): Option<Value> {
    match c
    case TotalAum => s.aum
    case AssetClass => s.assetClass
    case TargetReturnBm => s.returnBm
    case TargetReturnPerf => s.returnPerf
    case TotalInvestors => s.totalInvestors
    case CapitalFromTop3 => s.capitalTop
    case FirmHq => s.firmHq
    case YearsInOp => s.yearsOp
    case LeadTotalImpactExp => s.leaderImpact
    case PctInvestWomen => s.investWomen
    case PctInvestPoc => s.investPoc
    case PctSrMgmtWomen => s.mgmtWomen
    case PctSrMgmtPoc => s.mgmtPoc
    case MainSdg => s.mainSdg
    case SecondarySdg => s.secondarySdg
    case PctAumImpact => s.aumImpact
    case ImpactVerified => s.impactVerify
    case ImpactReported => s.impactReport
  }

  /** The column order names every column exactly once, and no two columns share a header. */
  lemma ColumnOrderIsSchema()
    ensures |ColumnOrder| == Arity
    ensures forall c: Column :: c in ColumnOrder
    ensures forall i, j :: 0 <= i < j < |ColumnOrder| ==> ColumnOrder[i] != ColumnOrder[j]
    ensures forall i, j :: 0 <= i < j < |ColumnOrder| ==> Header(ColumnOrder[i]) != Header(ColumnOrder[j])
  {
    forall c: Column ensures c in ColumnOrder {
      var i := Position(c);
    }
  }

  /** The inputs list and the column list line up: position i of one is the selection for position i of the other. */
  lemma InputsMatchColumns(s: Selections)
    ensures |InputsList(s)| == |ColumnOrder| == Arity
    ensures forall i :: 0 <= i < Arity ==> InputsList(s)[i] == SelectionFor(s, ColumnOrder[i])
  {
  }
}
