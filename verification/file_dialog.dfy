/** The upload dialog of `components/rag/FileUploadDialog.tsx`: a selection
    list of at most one file, the handlers that change it, and the two display
    decisions (size unit, icon category). */
module FileDialog {
  import opened Wrappers
  import Text
  import Api
  import UploadBox

  const MaxFiles := 1

  /** `Array.from(list).slice(0, MAX_FILES)`. */
  function TakeFirst(list: seq<Api.File>): (r: seq<Api.File>)
    ensures |r| <= MaxFiles && r <= list
    ensures list != [] ==> r == [list[0]]
  {
    if |list| <= MaxFiles then list else list[..MaxFiles]
  }

  /** `handleDrop`: the dropped files replace the selection, keeping only the first. */
  function Drop(selection: seq<Api.File>, dropped: seq<Api.File>): (r: seq<Api.File>)
    ensures |r| <= MaxFiles
    ensures dropped == [] ==> r == []
    ensures dropped != [] ==> r == [dropped[0]]
  {
    TakeFirst(dropped)
  }

  /** `handleFileSelect`: as a drop, except that a null file list changes nothing. */
  function Select(selection: seq<Api.File>, picked: Option<seq<Api.File>>): (r: seq<Api.File>)
    ensures picked.None? ==> r == selection
    ensures picked.Some? ==> |r| <= MaxFiles && r <= picked.value
    ensures picked.Some? && picked.value != [] ==> r == [picked.value[0]]
  {
    match picked
    case None => selection
    case Some(list) => TakeFirst(list)
  }

  /** `removeFile(index)`: `prev.filter((_, i) => i !== index)`, written as the
      filter it is. */
  function RemoveFile(selection: seq<Api.File>, index: int): (r: seq<Api.File>)
    decreases |selection|
  {
    if selection == [] then []
    else (if index == 0 then [] else [selection[0]]) + RemoveFile(selection[1..], index - 1)
  }

  /** Removing deletes exactly the file at `index` and keeps the rest in order;
      an index outside the list changes nothing. */
  lemma {:induction false} RemoveFileDeletesOne(selection: seq<Api.File>, index: int)
    ensures 0 <= index < |selection| ==> RemoveFile(selection, index) == selection[..index] + selection[index + 1..]
    ensures !(0 <= index < |selection|) ==> RemoveFile(selection, index) == selection
  {
    if 0 <= index < |selection| {
      RemoveFileInside(selection, index);
    } else {
      RemoveFileOutside(selection, index);
    }
  }

  lemma {:induction false} RemoveFileOutside(selection: seq<Api.File>, index: int)
    requires !(0 <= index < |selection|)
    ensures RemoveFile(selection, index) == selection
    decreases |selection|
  {
    if selection != [] {
      var head, tail := selection[0], selection[1..];
      RemoveFileOutside(tail, index - 1);
      assert RemoveFile(selection, index) == [head] + tail;
      assert [head] + tail == selection;
    }
  }

  lemma {:induction false} RemoveFileInside(selection: seq<Api.File>, index: int)
    requires 0 <= index < |selection|
    ensures RemoveFile(selection, index) == selection[..index] + selection[index + 1..]
    decreases |selection|
  {
    if index == 0 {
      RemoveFileFirst(selection);
    } else {
      var head, tail := selection[0], selection[1..];
      RemoveFileInside(tail, index - 1);
      var rest := RemoveFile(tail, index - 1);
      assert RemoveFile(selection, index) == [head] + rest;
      assert rest == tail[..index - 1] + tail[index..];
      assert [head] + tail[..index - 1] == selection[..index];
      assert tail[index..] == selection[index + 1..];
      assert [head] + rest == ([head] + tail[..index - 1]) + tail[index..];
    }
  }

  lemma RemoveFileFirst(selection: seq<Api.File>)
    requires selection != []
    ensures RemoveFile(selection, 0) == selection[1..]
  {
    RemoveFileOutside(selection[1..], -1);
  }

  /** What a dialog button did: the selection afterwards, the list handed to
      `onUpload` (if it was called), and whether `onClose` was called. */
  datatype Click = Click(selection: seq<Api.File>, uploaded: Option<seq<Api.File>>, closed: bool)

  /** `handleUploadClick`: with nothing selected nothing happens; otherwise the
      selection is handed to `onUpload`, then cleared, then the dialog closes. */
  function UploadClick(selection: seq<Api.File>): (r: Click)
    ensures selection == [] ==> r == Click(selection, None, false)
    ensures selection != [] ==> r.uploaded == Some(selection) && r.selection == [] && r.closed
  {
    if selection == [] then Click(selection, None, false) else Click([], Some(selection), true)
  }

  /** `handleCloseClick` (cancel, the close icon and the backdrop): always
      clears the selection and closes, uploading nothing. */
  function CloseClick(selection: seq<Api.File>): (r: Click)
    ensures r.selection == [] && r.uploaded.None? && r.closed
  {
    Click([], None, true)
  }

  /** However the selection was made, an upload click hands over exactly the
      first file offered, never more than one, and leaves the dialog empty. */
  lemma UploadsAtMostOneFile(selection: seq<Api.File>, dropped: seq<Api.File>, picked: Option<seq<Api.File>>)
    requires |selection| <= MaxFiles
    ensures var c := UploadClick(Drop(selection, dropped));
            && (c.uploaded.Some? <==> dropped != [])
            && (c.uploaded.Some? ==> c.uploaded.value == [dropped[0]])
    ensures var c := UploadClick(Select(selection, picked));
            && (c.uploaded.Some? ==> |c.uploaded.value| == 1)
            && (picked.Some? && picked.value != [] ==> c.uploaded == Some([picked.value[0]]))
            && (c.closed ==> c.selection == [])
  {
  }

  /** Every way of closing the dialog empties it, so a dialog opened again
      uploads nothing until a file is chosen anew; only the upload button
      ever hands files over. */
  lemma ClosingEmptiesDialog(selection: seq<Api.File>)
    ensures UploadClick(selection).closed ==> UploadClick(selection).selection == []
    ensures UploadClick(CloseClick(selection).selection).uploaded.None?
    ensures UploadClick(UploadClick(selection).selection).uploaded.None?
    ensures CloseClick(selection).uploaded.None? && UploadClick(selection).closed == (selection != [])
  {
  }

  /* ---------------- display decisions ---------------- */

  datatype SizeUnit = Bytes | Kilobytes | Megabytes

  /** The unit `formatFileSize` chooses; the one-decimal division is not modelled. */
  function SizeUnitFor(bytes: nat): (u: SizeUnit)
    ensures u == Bytes <==> bytes < 1024
    ensures u == Kilobytes <==> 1024 <= bytes < 1024 * 1024
    ensures u == Megabytes <==> 1024 * 1024 <= bytes
  {
    if bytes < 1024 then Bytes else if bytes < 1024 * 1024 then Kilobytes else Megabytes
  }

  /** How many bytes one of the unit is. */
  function UnitBytes(u: SizeUnit): nat {
    match u
    case Bytes => 1
    case Kilobytes => 1024
    case Megabytes => 1024 * 1024
  }

  /** The unit is the largest one in which the size is at least 1: for a
      non-empty file the exact ratio of bytes to the unit is at least 1 and,
      below megabytes, under 1024. */
  lemma SizeUnitScales(bytes: nat)
    ensures bytes > 0 ==> UnitBytes(SizeUnitFor(bytes)) <= bytes
    ensures SizeUnitFor(bytes) != Megabytes ==> bytes < 1024 * UnitBytes(SizeUnitFor(bytes))
  {
  }

  /** A larger file never gets a smaller unit. */
  lemma SizeUnitMonotone(a: nat, b: nat)
    requires a <= b
    ensures UnitBytes(SizeUnitFor(a)) <= UnitBytes(SizeUnitFor(b))
  {
  }

  /** The text after the last `.` of `s`, or all of `s` when it has none:
      `s.split(".").pop()`. */
  function LastSegment(s: string): (r: string)
    ensures |r| <= |s| && r == s[|s| - |r|..]
    ensures '.' !in r
    ensures |r| < |s| ==> s[|s| - |r| - 1] == '.'
  {
    if s == [] then []
    else if s[|s| - 1] == '.' then []
    else
      var r := LastSegment(s[..|s| - 1]) + [s[|s| - 1]];
      assert s[|s| - |r|..] == s[..|s| - 1][|s| - |r|..] + [s[|s| - 1]];
      r
  }

  datatype IconKind = PdfIcon | WordIcon | MarkdownIcon | GenericIcon

  /** `getFileIcon(name)`: chosen by the lower-cased last segment. */
  function IconFor(name: string): (k: IconKind)
    ensures var ext := Text.Lower(LastSegment(name));
            && (k == PdfIcon <==> ext == "pdf")
            && (k == WordIcon <==> ext == "doc" || ext == "docx")
            && (k == MarkdownIcon <==> ext == "md")
  {
    var ext := Text.Lower(LastSegment(name));
    if ext == "pdf" then PdfIcon
    else if ext == "doc" || ext == "docx" then WordIcon
    else if ext == "md" then MarkdownIcon
    else GenericIcon
  }

  /** A name without any `.` is its own extension: "pdf" gets the PDF icon. */
  lemma BareNameIsItsOwnExtension()
    ensures IconFor("pdf") == PdfIcon
  {
    LastSegmentWithoutDot("pdf");
    Text.LowerWithoutCapitals("pdf");
  }

  /** A name without any `.` is its own last segment. */
  lemma LastSegmentWithoutDot(s: string)
    requires '.' !in s
    ensures LastSegment(s) == s
  {
  }

  /** A name ending in `.` has an empty extension and gets the generic icon. */
  lemma TrailingDotIsGeneric()
    ensures IconFor("notes.") == GenericIcon
  {
    assert LastSegment("notes.") == "";
  }

  /** Appending a character other than `.` extends the last segment by it;
      appending `.` empties it. */
  lemma LastSegmentSnoc(t: string, d: char)
    ensures d != '.' ==> LastSegment(t + [d]) == LastSegment(t) + [d]
    ensures d == '.' ==> LastSegment(t + [d]) == []
  {
    assert (t + [d])[..|t|] == t;
  }

  /** Lower-casing a name lower-cases its last segment: `.` is not a letter. */
  lemma {:induction false} LastSegmentLower(s: string)
    ensures LastSegment(Text.Lower(s)) == Text.Lower(LastSegment(s))
    decreases |s|
  {
    if s != [] {
      var c := s[|s| - 1];
      var init := s[..|s| - 1];
      assert init + [c] == s;
      Text.LowerAppend(init, [c]);
      assert Text.Lower([c]) == [Text.LowerChar(c)];
      LastSegmentSnoc(Text.Lower(init), Text.LowerChar(c));
      LastSegmentSnoc(init, c);
      if c != '.' {
        LastSegmentLower(init);
        Text.LowerAppend(LastSegment(init), [c]);
      }
    }
  }

  /** The icon does not depend on the case of the name. */
  lemma IconIgnoresCase(name: string)
    ensures IconFor(name) == IconFor(Text.Lower(name))
  {
    LastSegmentLower(name);
    Text.LowerIdempotent(LastSegment(name));
  }

  /** When a name has a `.`, it is what comes before its last `.`, the `.`,
      and the last segment. */
  lemma SplitAtLastDot(name: string) returns (head: string)
    requires |LastSegment(name)| < |name|
    ensures name == head + (['.'] + LastSegment(name))
  {
    var ext := LastSegment(name);
    var m := |name| - |ext| - 1;
    head := name[..m];
    assert name[m..] == ['.'] + ext;
    assert name == head + name[m..];
  }

  /** Lower-casing keeps a `.`-led suffix a `.`-led suffix. */
  lemma LowerKeepsDotSuffix(head: string, ext: string)
    ensures Text.EndsWith(Text.Lower(head + (['.'] + ext)), ['.'] + Text.Lower(ext))
  {
    Text.LowerAppend(head, ['.'] + ext);
    Text.LowerAppend(['.'], ext);
    assert Text.Lower(['.']) == ['.'];
    var l, lowTail := Text.Lower(head + (['.'] + ext)), ['.'] + Text.Lower(ext);
    assert l == Text.Lower(head) + lowTail;
    assert l[|l| - |lowTail|..] == lowTail;
  }

  /** When a name has a `.`, its lower-cased form ends with `.` followed by
      the lower-cased extension. */
  lemma LowerEndsWithExtension(name: string)
    requires |LastSegment(name)| < |name|
    ensures Text.EndsWith(Text.Lower(name), ['.'] + Text.Lower(LastSegment(name)))
  {
    var head := SplitAtLastDot(name);
    LowerKeepsDotSuffix(head, LastSegment(name));
  }

  /** A string ending in `.pdf` or `.md` ends in one of the allow-list's
      extensions. */
  lemma EndsWithAllowedExtension(l: string, e: string)
    requires e == "pdf" || e == "md"
    requires Text.EndsWith(l, ['.'] + e)
    ensures exists k :: 0 <= k < |UploadBox.Allowed| && Text.EndsWith(l, UploadBox.Allowed[k])
  {
    if e == "pdf" {
      assert UploadBox.Allowed[0] == ['.'] + e;
      assert Text.EndsWith(l, UploadBox.Allowed[0]);
    } else {
      assert UploadBox.Allowed[2] == ['.'] + e;
      assert Text.EndsWith(l, UploadBox.Allowed[2]);
    }
  }

  /** A name whose lower-cased form ends in `.pdf` or `.md` passes the
      upload box's allow-list. */
  lemma DotExtensionAllowed(name: string, e: string)
    requires e == "pdf" || e == "md"
    requires Text.EndsWith(Text.Lower(name), ['.'] + e)
    ensures UploadBox.IsAllowed(name)
  {
    EndsWithAllowedExtension(Text.Lower(name), e);
  }

  /** Where the name has a `.`, the PDF and Markdown icons are only given to
      names the upload box's allow-list accepts. */
  lemma IconAgreesWithAllowList(name: string)
    ensures |LastSegment(name)| < |name| && (IconFor(name) == PdfIcon || IconFor(name) == MarkdownIcon) ==>
              UploadBox.IsAllowed(name)
  {
    var e := Text.Lower(LastSegment(name));
    if |LastSegment(name)| < |name| && (IconFor(name) == PdfIcon || IconFor(name) == MarkdownIcon) {
      assert e == "pdf" || e == "md";
      LowerEndsWithExtension(name);
      DotExtensionAllowed(name, e);
    }
  }

  /** A bare name is its own extension, so "pdf" gets the PDF icon although
      the upload box's allow-list would refuse it. */
  lemma BarePdfNotAllowed()
    ensures IconFor("pdf") == PdfIcon && !UploadBox.IsAllowed("pdf")
  {
    BareNameIsItsOwnExtension();
    UploadBox.AllowedByTail("pdf");
    Text.LowerWithoutCapitals("pdf");
  }
}
