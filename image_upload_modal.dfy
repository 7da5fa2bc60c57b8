/** The image-upload dialog of the editor: choosing a file proposes an alt
    text, confirming hands file and alt text to the upload callback, and
    the dialog clears and closes only when that upload succeeds. */
module ImageUploadModal {
  import opened Wrappers
  import opened Strings
  import opened Entities

  const RetryAlert := "上傳失敗，請重試"

  /** `name.split(".").slice(0, -1).join(".")`. */
  function AltStem(name: string): string {
    var parts := Split(name, '.');
    Join(parts[..|parts| - 1], '.')
  }

  /** Joining n >= 2 pieces is joining the first n - 1, the separator and
      the last piece. */
  lemma {:induction false} JoinSnoc(parts: seq<string>, sep: char)
    requires |parts| >= 2
    ensures Join(parts, sep) == Join(parts[..|parts| - 1], sep) + [sep] + parts[|parts| - 1]
    decreases |parts|
  {
    if |parts| > 2 {
      JoinSnoc(parts[1..], sep);
      assert parts[..|parts| - 1][1..] == parts[1..][..|parts| - 2];
    }
  }

  /** The proposed alt text is the name up to its last dot, or empty when
      the name has no dot. */
  lemma AltStemBeforeLastDot(name: string)
    ensures '.' !in name ==> AltStem(name) == ""
    ensures '.' in name ==>
      var r := AltStem(name);
      |r| < |name| && name[..|r|] == r && name[|r|] == '.' &&
      forall i :: |r| < i < |name| ==> name[i] != '.'
  {
    var parts := Split(name, '.');
    JoinSplit(name, '.');
    if |parts| >= 2 {
      JoinSnoc(parts, '.');
      var r := AltStem(name);
      var last := parts[|parts| - 1];
      assert name == r + ['.'] + last;
      assert name[|r|] == '.';
      assert name[..|r|] == r;
      forall i | |r| < i < |name| ensures name[i] != '.' {
        assert name[i] == last[i - |r| - 1];
      }
    }
  }

  /** The stem is determined by the position of the only dot the name has
      after it. */
  lemma StemEndsAtDot(name: string, dot: nat)
    requires dot < |name| && name[dot] == '.'
    requires forall i :: dot < i < |name| ==> name[i] != '.'
    ensures AltStem(name) == name[..dot]
  {
    AltStemBeforeLastDot(name);
    var r := AltStem(name);
    assert |r| == dot;
  }

  /** The cases the dialog's comment has in mind: `photo.png` gives
      `photo`, `a.b.png` gives `a.b` and a name without a dot gives the
      empty text. */
  lemma AltStemExamples(photo: string, dotted: string, bare: string)
    requires photo == "photo.png" && dotted == "a.b.png" && bare == "noext"
    ensures AltStem(photo) == "photo"
    ensures AltStem(dotted) == "a.b"
    ensures AltStem(bare) == ""
  {
    StemEndsAtDot(photo, 5);
    assert photo[..5] == "photo";
    StemEndsAtDot(dotted, 3);
    assert dotted[..3] == "a.b";
    AltStemBeforeLastDot(bare);
  }

  class UploadDialog {
    var file: Option<File>
    /** The object URL of the chosen file. */
    var preview: Option<string>
    var altText: string
    var isUploading: bool

    constructor()
      ensures file.None? && preview.None? && altText == "" && !isUploading
    {
      file, preview, altText, isUploading := None, None, "", false;
    }

    /** `handleFileChange`: a chosen file replaces the previous one, gets
        a preview URL and proposes its stem as alt text; cancelling the
        picker changes nothing. */
    method ChooseFile(selected: Option<File>, objectUrl: string)
      modifies this`file, this`preview, this`altText
      ensures selected.None? ==> file == old(file) && preview == old(preview) && altText == old(altText)
      ensures selected.Some? ==>
        file == selected && preview == Some(objectUrl) && altText == AltStem(selected.value.name)
    {
      if selected.Some? {
        file := selected;
        preview := Some(objectUrl);
        altText := AltStem(selected.value.name);
      }
    }

    method TypeAlt(text: string)
      modifies this`altText
      ensures altText == text
    {
      altText := text;
    }

    /** The confirm button's `disabled`. */
    predicate ConfirmDisabled()
      reads this
    {
      file.None? || isUploading
    }

    /** The first half of `handleSubmit`: without a file nothing happens;
        otherwise the upload of the file with the current alt text starts. */
    method StartSubmit() returns (request: Option<(File, string)>)
      modifies this`isUploading
      ensures old(file).None? ==> request.None? && isUploading == old(isUploading)
      ensures old(file).Some? ==> request == Some((file.value, altText)) && isUploading
    {
      if file.None? {
        return None;
      }
      isUploading := true;
      request := Some((file.value, altText));
    }

    /** The second half: success clears the dialog and closes it; failure
        alerts and keeps file, preview and alt text for a retry. */
    method FinishSubmit(succeeded: bool) returns (closed: bool, alert: Option<string>)
      requires isUploading
      modifies this`file, this`preview, this`altText, this`isUploading
      ensures !isUploading
      ensures succeeded ==> closed && alert.None? && file.None? && preview.None? && altText == ""
      ensures !succeeded ==>
        !closed && alert == Some(RetryAlert) &&
        file == old(file) && preview == old(preview) && altText == old(altText)
    {
      if succeeded {
        file, preview, altText := None, None, "";
        closed, alert := true, None;
      } else {
        closed, alert := false, Some(RetryAlert);
      }
      isUploading := false;
    }

    /** `handleClose`: ignored while an upload runs. */
    method Close() returns (closed: bool)
      ensures closed <==> !isUploading
    {
      closed := !isUploading;
    }
  }
}
