/** The records and issues the PDF extractors produce. */
module PdfRecords {

  /** `_ParseIssue`: a rejected line (or table) and the reason. */
  datatype Issue = Issue(line: string, reason: string)

  /** `_canonical_row`: a table row under the keys `date`, `time_in`, `time_out`, `site`, `notes`. */
  datatype CanonicalRow = CanonicalRow(date: string, timeIn: string, timeOut: string, site: string, notes: string)
  {
    /** The row as the dict the source builds. */
    function AsDict(): map<string, string> {
      map["date" := date, "time_in" := timeIn, "time_out" := timeOut, "site" := site, "notes" := notes]
    }
  }

  /** `_record`: a text line under the Hebrew keys `תאריך`, `כניסה`, `יציאה`, `אתר`, `הערות`. */
  datatype TextRecord = TextRecord(date: string, timeIn: string, timeOut: string, site: string, notes: string)
  {
    function AsDict(): map<string, string> {
      map["תאריך" := date, "כניסה" := timeIn, "יציאה" := timeOut, "אתר" := site, "הערות" := notes]
    }
  }
}
