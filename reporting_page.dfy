/**
 * The derived values of the reporting page (`ReportingPage`): the icon of a
 * file type, the number of results the screening step reports as excluded,
 * the number a statistics card shows, and when the export button is
 * disabled.
 */
module ReportingPage {
  import opened Wrappers
  import opened Text
  import opened UrlNormalizer

  /** The icons of the histogram: 📄 📝 📊 📈 🌐 and the folder 📁. */
  datatype Icon = PdfIcon | WordIcon | SlidesIcon | SheetIcon | WebIcon | FolderIcon

  /** getFileTypeIcon: chosen by the lower-cased type; any other type gets the folder. */
  function FileTypeIcon(fileType: string): (icon: Icon)
    ensures icon == PdfIcon <==> ToLower(fileType) == "pdf"
    ensures icon == WordIcon <==> ToLower(fileType) in ["doc", "docx"]
    ensures icon == SlidesIcon <==> ToLower(fileType) in ["ppt", "pptx"]
    ensures icon == SheetIcon <==> ToLower(fileType) in ["xls", "xlsx"]
    ensures icon == WebIcon <==> ToLower(fileType) == "html"
  {
    var t := ToLower(fileType);
    if t == "pdf" then PdfIcon
    else if t == "doc" || t == "docx" then WordIcon
    else if t == "ppt" || t == "pptx" then SlidesIcon
    else if t == "xls" || t == "xlsx" then SheetIcon
    else if t == "html" then WebIcon
    else FolderIcon
  }

  /** The icon does not depend on the case of the type. */
  lemma IconIgnoresCase(fileType: string)
    ensures FileTypeIcon(ToLower(fileType)) == FileTypeIcon(fileType)
  {
    ToLowerIsLowerCase(fileType);
    ToLowerIsLowerCase(ToLower(fileType));
  }

  /**
   * Of the types the processing pipeline stores (a document type, `html`,
   * or `unknown` for a URL that did not parse), only `unknown` falls back to
   * the folder.
   */
  lemma PipelineTypesHaveIcons(fileType: string)
    requires fileType in DocumentTypes || fileType == "html" || fileType == "unknown"
    ensures FileTypeIcon(fileType) == FolderIcon <==> fileType == "unknown"
  {
    if fileType in DocumentTypes {
      var k :| 0 <= k < |DocumentTypes| && DocumentTypes[k] == fileType;
      assert IsLowerCase(fileType);
    } else {
      assert IsLowerCase(fileType);
    }
    ToLowerIsLowerCase(fileType);
  }

  /**
   * The screening step's "results excluded": raw results less processed
   * results less duplicates, which is negative when duplicates outnumber
   * the raw results left unprocessed.
   */
  function Excluded(rawResultsCount: int, processedResultsCount: int, duplicatesCount: int): (excluded: int)
    ensures excluded + processedResultsCount + duplicatesCount == rawResultsCount
    ensures excluded < 0 <==> duplicatesCount > rawResultsCount - processedResultsCount
  {
    rawResultsCount - processedResultsCount - duplicatesCount
  }

  /** StatCard's `value || 0`: an absent count shows as 0. */
  function StatValue(value: Option<int>): (shown: int)
    ensures value.None? ==> shown == 0
    ensures value.Some? ==> shown == value.value
  {
    if value.Some? then value.value else 0
  }

  /**
   * The export button is disabled while an export runs or when the summary
   * reports no processed results; an absent count does not disable it.
   */
  function ExportDisabled(isExporting: bool, processedResultsCount: Option<int>): (disabled: bool)
    ensures disabled <==> isExporting || processedResultsCount == Some(0)
  {
    isExporting || (processedResultsCount.Some? && processedResultsCount.value == 0)
  }
}
