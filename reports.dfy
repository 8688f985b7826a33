/**
 * desarrollador-1-feature.js: generated reports, kept in order, looked up
 * by type and exported to a PDF file name. The id (`Date.now()`) and the
 * ISO text of the generation date are parameters.
 */
module Reports {
  import opened Wrappers
  import opened Seqs
  import opened Strings

  const DefaultType: string := "summary"
  const Completed: string := "completed"

  datatype Report = Report(id: nat, kind: string, data: string, generatedAt: string, status: string)

  /** The file name `exportToPDF` gives a report. */
  function PdfName(r: Report): string
  {
    "PDF_" + NatToString(r.id) + "_" + r.generatedAt + ".pdf"
  }

  /** `exportToPDF`: the name of the first report with the id, or `None` (`null`). */
  function Export(reports: seq<Report>, reportId: nat): (r: Option<string>)
    ensures r.None? <==> forall i :: 0 <= i < |reports| ==> reports[i].id != reportId
  {
    var i := FindIndex(reports, (r: Report) => r.id == reportId);
    if i < |reports| then Some(PdfName(reports[i])) else None
  }

  /** Export fails exactly for an unknown id, and otherwise names the first report carrying it. */
  lemma {:induction false} ExportIff(reports: seq<Report>, reportId: nat)
    ensures Export(reports, reportId).None? <==> forall i :: 0 <= i < |reports| ==> reports[i].id != reportId
    ensures forall i :: 0 <= i < |reports| && reports[i].id == reportId && (forall j :: 0 <= j < i ==> reports[j].id != reportId) ==>
      Export(reports, reportId) == Some(PdfName(reports[i]))
  {
    var k := FindIndex(reports, (r: Report) => r.id == reportId);
    forall i | 0 <= i < |reports| && reports[i].id == reportId && (forall j :: 0 <= j < i ==> reports[j].id != reportId)
      ensures Export(reports, reportId) == Some(PdfName(reports[i]))
    {
      assert k == i;
    }
  }

  /** The id can be read back from the file name: it is the digits between `PDF_` and the next `_`. */
  lemma {:induction false} PdfNameId(r: Report)
    ensures var name := PdfName(r);
      && name[..4] == "PDF_"
      && var digits := name[4..4 + |NatToString(r.id)|];
      AllDigits(digits) && DigitsToNat(digits) == r.id && name[4 + |digits|] == '_'
  {
    var name := PdfName(r);
    var s := NatToString(r.id);
    assert name == "PDF_" + s + ("_" + r.generatedAt + ".pdf");
    assert name[4..4 + |s|] == s;
    NatToStringRoundTrip(r.id);
  }

  /** `getReportsByType` keeps exactly the reports of that type. */
  lemma {:induction false} ByTypeExact(reports: seq<Report>, kind: string)
    ensures var r := Filter(reports, (x: Report) => x.kind == kind);
      forall x :: x in r <==> x in reports && x.kind == kind
  {
    FilterMembers(reports, (x: Report) => x.kind == kind);
  }

  /** A report just generated is found again by its type, and exported by its id unless an older report has it. */
  lemma {:induction false} GeneratedFound(reports: seq<Report>, r: Report)
    requires forall i :: 0 <= i < |reports| ==> reports[i].id != r.id
    ensures r in Filter(reports + [r], (x: Report) => x.kind == r.kind)
    ensures Export(reports + [r], r.id) == Some(PdfName(r))
  {
    var all := reports + [r];
    FilterMembers(all, (x: Report) => x.kind == r.kind);
    assert all[|reports|] == r;
    ExportIff(all, r.id);
    assert forall j :: 0 <= j < |reports| ==> all[j].id != r.id by {
      forall j | 0 <= j < |reports| ensures all[j].id != r.id { assert all[j] == reports[j]; }
    }
  }

  class ReportService {
    var reports: seq<Report>

    constructor()
      ensures reports == []
    {
      reports := [];
    }

    /** `generateReport`; `kind` is `None` when the argument is left out (`type = 'summary'`). */
    method GenerateReport(data: string, kind: Option<string>, id: nat, generatedAt: string) returns (r: Report)
      modifies this
      ensures r == Report(id, if kind.Some? then kind.value else DefaultType, data, generatedAt, Completed)
      ensures reports == old(reports) + [r]
    {
      var t := if kind.Some? then kind.value else DefaultType;
      r := Report(id, t, data, generatedAt, Completed);
      reports := reports + [r];
    }

    function GetReportsByType(kind: string): (rs: seq<Report>)
      reads this
      ensures forall x :: x in rs <==> x in reports && x.kind == kind
      ensures |rs| <= |reports|
    {
      FilterMembers(reports, (x: Report) => x.kind == kind);
      Filter(reports, (x: Report) => x.kind == kind)
    }

    function ExportToPdf(reportId: nat): (name: Option<string>)
      reads this
      ensures name.None? <==> forall i :: 0 <= i < |reports| ==> reports[i].id != reportId
    {
      ExportIff(reports, reportId);
      Export(reports, reportId)
    }
  }
}
