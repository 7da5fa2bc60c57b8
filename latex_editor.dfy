/** The LaTeX block editor: compiles its code on the server and offers the
    resulting PDF for download. The server's reply is an input; object
    URLs are handed in by the caller and revoked URLs are recorded. */
module LatexEditor {
  import opened Wrappers
  import opened Strings
  import opened Json

  const CompileFailed := "編譯失敗"
  const CompilePath := "/api/posts/compile_latex/"
  const DownloadName := "latex-document.pdf"

  /** `getBaseUrl`: the public API URL with one trailing `/api` removed. */
  function GetBaseUrl(publicApiUrl: Option<string>): (r: string)
    ensures var raw := if publicApiUrl.Some? then publicApiUrl.value else "";
      && (EndsWith(raw, "/api") ==> raw == r + "/api")
      && (!EndsWith(raw, "/api") ==> r == raw)
  {
    var raw := if publicApiUrl.Some? then publicApiUrl.value else "";
    if EndsWith(raw, "/api") then raw[..|raw| - 4] else raw
  }

  /** Only one `/api` is removed. */
  lemma GetBaseUrlRemovesOnce(url: string)
    ensures GetBaseUrl(Some(url + "/api/api")) == url + "/api"
  {
    var raw := url + "/api/api";
    assert raw[|raw| - 4..] == "/api";
    assert raw[..|raw| - 4] == url + "/api";
  }

  /** What the compile request brings back: a PDF blob, a non-OK reply's
      JSON body, or an exception (network failure, unparsable body). */
  datatype CompileResponse = Pdf(blob: nat) | Rejected(body: Fields) | Thrown(message: string)

  /** `data.log || "編譯失敗"`, as the message of the thrown error. */
  function RejectionMessage(body: Fields): (m: string)
    ensures Present(Get(body, "log")) ==> m == ToText(Get(body, "log").value)
    ensures !Present(Get(body, "log")) ==> m == CompileFailed
  {
    var log := Get(body, "log");
    if Present(log) then ToText(log.value) else CompileFailed
  }

  datatype CompileRequest = CompileRequest(url: string, code: string, lang: string)

  class Compiler {
    var code: string
    var lang: string
    var isCompiling: bool
    var pdfUrl: Option<string>
    var error: Option<string>
    /** Every object URL passed to `URL.revokeObjectURL`, in order. */
    var revoked: seq<string>

    constructor(initialCode: string)
      ensures code == initialCode && lang == "zh" && !isCompiling
      ensures pdfUrl.None? && error.None? && revoked == []
    {
      code, lang, isCompiling := initialCode, "zh", false;
      pdfUrl, error, revoked := None, None, [];
    }

    method EditCode(text: string)
      modifies this`code
      ensures code == text
    {
      code := text;
    }

    method SelectLang(choice: string)
      modifies this`lang
      ensures lang == choice
    {
      lang := choice;
    }

    predicate CompileDisabled()
      reads this
    {
      isCompiling
    }

    /** The Download button is rendered only while a PDF URL is held. */
    predicate DownloadShown()
      reads this
    {
      pdfUrl.Some? && pdfUrl.value != ""
    }

    /** The first half of `handleCompile`: busy, error cleared, the held PDF
        URL revoked (but still held), and the code and language posted
        unchanged. */
    method StartCompile(publicApiUrl: Option<string>) returns (request: CompileRequest)
      modifies this`isCompiling, this`error, this`revoked
      ensures isCompiling && error.None?
      ensures request == CompileRequest(GetBaseUrl(publicApiUrl) + CompilePath, code, lang)
      ensures revoked == old(revoked) + if old(DownloadShown()) then [pdfUrl.value] else []
      ensures DownloadShown() ==> pdfUrl.value in revoked
    {
      isCompiling := true;
      error := None;
      if DownloadShown() {
        revoked := revoked + [pdfUrl.value];
      }
      request := CompileRequest(GetBaseUrl(publicApiUrl) + CompilePath, code, lang);
    }

    /** The second half: a PDF replaces the URL; any failure records its
        message and leaves the old, already revoked URL in place. */
    method FinishCompile(response: CompileResponse, objectUrl: string)
      requires isCompiling
      modifies this`pdfUrl, this`error, this`isCompiling
      ensures !isCompiling
      ensures response.Pdf? ==> pdfUrl == Some(objectUrl) && error == old(error)
      ensures response.Rejected? ==> error == Some(RejectionMessage(response.body)) && pdfUrl == old(pdfUrl)
      ensures response.Thrown? ==> error == Some(response.message) && pdfUrl == old(pdfUrl)
    {
      match response {
        case Pdf(_) => pdfUrl := Some(objectUrl);
        case Rejected(body) => error := Some(RejectionMessage(body));
        case Thrown(message) => error := Some(message);
      }
      isCompiling := false;
    }

    /** `handleDownload`: a link to the held URL, or nothing without one. */
    method Download() returns (link: Option<(string, string)>)
      ensures link.Some? <==> DownloadShown()
      ensures link.Some? ==> link.value == (pdfUrl.value, DownloadName)
    {
      if DownloadShown() {
        link := Some((pdfUrl.value, DownloadName));
      } else {
        link := None;
      }
    }
  }
}
