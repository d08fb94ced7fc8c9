/** The upload panel of `components/UploadBox.tsx`: an extension allow-list
    checked all-or-nothing before a single multi-file upload. */
module UploadBox {
  import opened Wrappers
  import Text
  import Api

  const Allowed: seq<string> := [".pdf", ".txt", ".md"]

  /** `isAllowed(name)`: the lower-cased name ends with an allowed extension. */
  predicate IsAllowed(name: string) {
    exists k :: 0 <= k < |Allowed| && Text.EndsWith(Text.Lower(name), Allowed[k])
  }

  /** The allow-list check is insensitive to the case of the name. */
  lemma AllowedIgnoresCase(name: string)
    ensures IsAllowed(name) <==> IsAllowed(Text.Lower(name))
  {
    Text.LowerIdempotent(name);
  }

  /** The check reads only the last four characters: a name is allowed
      exactly when its lower-cased tail is one of the three extensions. */
  lemma AllowedByTail(name: string)
    ensures IsAllowed(name) <==>
              var l := Text.Lower(name);
              Text.EndsWith(l, ".pdf") || Text.EndsWith(l, ".txt") || Text.EndsWith(l, ".md")
  {
    var l := Text.Lower(name);
    assert Allowed[0] == ".pdf" && Allowed[1] == ".txt" && Allowed[2] == ".md";
    if Text.EndsWith(l, ".pdf") {
      assert Text.EndsWith(l, Allowed[0]);
    } else if Text.EndsWith(l, ".txt") {
      assert Text.EndsWith(l, Allowed[1]);
    } else if Text.EndsWith(l, ".md") {
      assert Text.EndsWith(l, Allowed[2]);
    }
  }

  /** An upper-case extension is accepted. */
  lemma UpperCaseExtensionAllowed()
    ensures IsAllowed("A.PDF")
  {
    var l := Text.Lower("A.PDF");
    assert l == "a.pdf";
    assert l[|l| - 4..] == ".pdf";
    AllowedByTail("A.PDF");
  }

  /** An allowed extension that is not at the end of the name is refused. */
  lemma InnerExtensionRefused()
    ensures !IsAllowed("a.pdf.zip")
  {
    Text.LowerWithoutCapitals("a.pdf.zip");
    var l := Text.Lower("a.pdf.zip");
    assert l[|l| - 4..] == ".zip";
    assert l[|l| - 3..] == "zip";
    AllowedByTail("a.pdf.zip");
  }

  /** The files failing the allow-list, in input order; a disallowed file
      given twice is listed twice. */
  function Rejected(files: seq<Api.File>): (r: seq<Api.File>)
    ensures |r| <= |files|
    ensures forall f :: f in r <==> f in files && !IsAllowed(f.name)
    ensures forall f :: multiset(r)[f] == (if IsAllowed(f.name) then 0 else multiset(files)[f])
  {
    if files == [] then []
    else
      assert files == [files[0]] + files[1..];
      if IsAllowed(files[0].name) then Rejected(files[1..])
      else [files[0]] + Rejected(files[1..])
  }

  /** Rejection keeps input order: the rejected files form a subsequence. */
  lemma {:induction false} RejectedIsSubsequence(files: seq<Api.File>)
    ensures IsSubsequence(Rejected(files), files)
  {
    if files != [] {
      RejectedIsSubsequence(files[1..]);
      if !IsAllowed(files[0].name) {
        assert Rejected(files) == [files[0]] + Rejected(files[1..]);
        assert files == [files[0]] + files[1..];
      }
    }
  }

  predicate IsSubsequence<T(==)>(xs: seq<T>, ys: seq<T>)
    decreases |ys|
  {
    xs == [] || (ys != [] && (if xs[0] == ys[0] then IsSubsequence(xs[1..], ys[1..]) else IsSubsequence(xs, ys[1..])))
  }

  function Names(files: seq<Api.File>): (r: seq<string>)
    ensures |r| == |files| && forall i :: 0 <= i < |files| ==> r[i] == files[i].name
  {
    if files == [] then [] else [files[0].name] + Names(files[1..])
  }

  function UnsupportedMessage(bad: seq<Api.File>): string {
    " Unsupported files: " + Text.Join(Names(bad), ", ")
  }

  datatype Box = Box(busy: bool, msg: string)

  /** What `handleFiles` did: the panel afterwards, the file list handed to
      `uploadDocuments` (if it was called), and whether the file input was
      cleared. */
  datatype Attempt = Attempt(box: Box, uploaded: Option<seq<Api.File>>, inputCleared: bool)

  /** `handleFiles(files)`. `None` is a null `FileList`; `upload` is what
      `uploadDocuments` would return or throw. */
  function HandleFiles(box: Box, files: Option<seq<Api.File>>, upload: Outcome<Api.Error>): (r: Attempt)
    ensures files.None? || files == Some([]) ==> r == Attempt(box, None, false)
    ensures files.Some? && files.value != [] && Rejected(files.value) != [] ==>
              r == Attempt(box.(msg := UnsupportedMessage(Rejected(files.value))), None, false)
    ensures files.Some? && files.value != [] && Rejected(files.value) == [] ==>
              && r.uploaded == Some(files.value)
              && !r.box.busy && r.inputCleared
              && r.box.msg == (if upload.Pass? then " Upload successful!" else " " + upload.error.message)
    ensures r.uploaded.Some? <==> files.Some? && files.value != [] && forall f :: f in files.value ==> IsAllowed(f.name)
  {
    match files
    case None => Attempt(box, None, false)
    case Some(list) =>
      if list == [] then Attempt(box, None, false)
      else
        var bad := Rejected(list);
        if bad != [] then Attempt(box.(msg := UnsupportedMessage(bad)), None, false)
        else
          var msg := match upload
            case Pass => " Upload successful!"
            case Fail(e) => " " + e.message;
          Attempt(Box(false, msg), Some(list), true)
  }

  /** A single disallowed file stops the whole batch from being sent. */
  lemma AllOrNothing(box: Box, list: seq<Api.File>, upload: Outcome<Api.Error>, i: nat)
    requires i < |list| && !IsAllowed(list[i].name)
    ensures HandleFiles(box, Some(list), upload).uploaded == None
    ensures HandleFiles(box, Some(list), upload).box.msg == UnsupportedMessage(Rejected(list))
    ensures list[i].name in Names(Rejected(list))
  {
    assert list[i] in Rejected(list);
  }
}
