/**
 * The pure part of the upload form's guard: the record of a selected file,
 * the ordered validation rules (presence, .xlsx format, size cap) and the
 * messages shown when a rule fails.
 */
module Validation {

  datatype Option<T> = None | Some(value: T)

  /** A file as the browser's file input reports it. */
  datatype FileInfo = FileInfo(name: string, mimeType: string, size: nat)

  /** Which rule, if any, rejected the current file. */
  datatype Outcome = Ok | NoFile | BadFormat | TooLarge

  /** The size cap: 50 MiB. */
  const MAX_BYTES: nat := 50 * 1024 * 1024

  const XLSX_MIME: string := "application/vnd.openxmlformats-officedocument.spreadsheetml.sheet"

  const XLSX_EXTENSION: string := ".xlsx"

  const NO_FILE_MESSAGE: string := "Selecione um arquivo .xlsx antes de enviar."

  const BAD_FORMAT_MESSAGE: string := "Formato inválido. Envie um arquivo .xlsx."

  // ---------- Strings ----------

  /** Lower-cases one character; only the ASCII letters A-Z are mapped. */
  function LowerAscii(c: char): char {
    if 'A' <= c <= 'Z' then (c as int - 'A' as int + 'a' as int) as char else c
  }

  /** Lower-cases a string character by character (ASCII idealisation of toLowerCase). */
  function ToLower(s: string): (r: string)
    ensures |r| == |s|
    ensures forall i :: 0 <= i < |s| ==> r[i] == LowerAscii(s[i])
  {
    if s == [] then [] else [LowerAscii(s[0])] + ToLower(s[1..])
  }

  /** String.prototype.endsWith with a single argument. */
  predicate EndsWith(s: string, suffix: string) {
    |suffix| <= |s| && s[|s| - |suffix|..] == suffix
  }

  /**
   * The name carries the extension .xlsx in any letter case; only its last
   * five characters matter.
   */
  predicate HasXlsxExtension(name: string): (r: bool)
    ensures r <==> |name| >= 5 && ToLower(name[|name| - 5..]) == XLSX_EXTENSION
  {
    EndsWith(ToLower(name), XLSX_EXTENSION)
  }

  /**
   * The format rule: the declared type is the spreadsheet type, or each of the
   * name's last five characters lower-cases to the matching one of .xlsx.
   */
  predicate IsXlsx(f: FileInfo): (r: bool)
    ensures r <==> f.mimeType == XLSX_MIME ||
                   (|f.name| >= 5 && forall k :: 0 <= k < 5 ==> LowerAscii(f.name[|f.name| - 5 + k]) == XLSX_EXTENSION[k])
  {
    f.mimeType == XLSX_MIME || HasXlsxExtension(f.name)
  }

  // ---------- Validation ----------

  /** Reference definition of an acceptable selection, independent of rule order. */
  predicate IsValid(f: Option<FileInfo>): (r: bool)
    ensures r <==> f.Some? && f.value.size <= 52428800 &&
                   (f.value.mimeType == XLSX_MIME || HasXlsxExtension(f.value.name))
  {
    f.Some? && IsXlsx(f.value) && f.value.size <= MAX_BYTES
  }

  /** The decision of validateCurrentFile: the first failing rule wins. */
  function Validate(f: Option<FileInfo>): (o: Outcome)
    ensures o == Ok <==> IsValid(f)
    ensures o == NoFile <==> f.None?
    ensures o == BadFormat <==> f.Some? && !IsXlsx(f.value)
    ensures o == TooLarge <==> f.Some? && IsXlsx(f.value) && f.value.size > MAX_BYTES
  {
    match f
    case None => NoFile
    case Some(file) =>
      if !IsXlsx(file) then BadFormat
      else if file.size > MAX_BYTES then TooLarge
      else Ok
  }

  /**
   * The message shown for a failing rule. `format` stands for formatBytes,
   * which the model keeps abstract.
   */
  function ErrorMessage(f: Option<FileInfo>, format: nat -> string): (m: string)
    requires Validate(f) != Ok
    ensures m != []
    ensures Validate(f) == TooLarge ==>
      var shown, cap := format(f.value.size), format(MAX_BYTES);
      |m| == 22 + |shown| + 21 + |cap| + 1 &&
      m[22..22 + |shown|] == shown &&
      m[22 + |shown| + 21..22 + |shown| + 21 + |cap|] == cap
  {
    match Validate(f)
    case NoFile => NO_FILE_MESSAGE
    case BadFormat => BAD_FORMAT_MESSAGE
    case TooLarge =>
      "Arquivo muito grande (" + format(f.value.size) + "). Máximo permitido: " + format(MAX_BYTES) + "."
  }

  // ---------- Properties ----------

  /** A name whose last five characters spell .xlsx in any case passes the extension test. */
  lemma AnyCaseExtension(stem: string, ext: string)
    requires ToLower(ext) == XLSX_EXTENSION
    ensures HasXlsxExtension(stem + ext)
  {
  }

  /** A file named report.XLSX with no declared type passes the format rule. */
  lemma UpperCaseNamePasses(size: nat)
    requires size <= MAX_BYTES
    ensures Validate(Some(FileInfo("report.XLSX", "", size))) == Ok
  {
    assert ToLower(".XLSX") == XLSX_EXTENSION;
    AnyCaseExtension("report", ".XLSX");
    assert "report" + ".XLSX" == "report.XLSX";
  }

  /** The size cap is exactly 52,428,800 bytes, and the comparison is strict. */
  lemma SizeBoundary(name: string, mimeType: string)
    requires IsXlsx(FileInfo(name, mimeType, 0))
    ensures MAX_BYTES == 52428800
    ensures Validate(Some(FileInfo(name, mimeType, 52428800))) == Ok
    ensures Validate(Some(FileInfo(name, mimeType, 52428801))) == TooLarge
  {
  }

  /** The rules apply in order: absence first, then format, then size. */
  lemma RuleOrder(f: FileInfo)
    ensures Validate(None) == NoFile
    ensures !IsXlsx(f) ==> Validate(Some(f)) == BadFormat
    ensures f.size > MAX_BYTES ==> Validate(Some(f)) != Ok
  {
  }

  /** Different failing rules produce different messages, so the message names the rule. */
  lemma MessageIdentifiesRule(f: Option<FileInfo>, g: Option<FileInfo>, format: nat -> string)
    requires Validate(f) != Ok && Validate(g) != Ok
    requires Validate(f) != Validate(g)
    ensures ErrorMessage(f, format) != ErrorMessage(g, format)
  {
  }
}
