/**
 * The file-type check both upload screens of the web client make before sending a resume:
 * the lower-cased name from its last '.' on must be ".pdf", ".docx" or ".txt". A name without
 * a '.' is judged by its last character, since `slice(-1)` keeps just that.
 */
module FileType {
  import opened Wrappers
  import opened Text
  import Backend

  const AllowedTypes: seq<string> := [".pdf", ".docx", ".txt"]

  /** `name.toLowerCase().slice(name.lastIndexOf('.'))`. */
  function ClientExtension(name: string): (ext: string)
    ensures '.' in name ==> ext == Lower(name)[LastIndexOf(name, '.')..]
    ensures '.' !in name ==> |ext| <= 1
  {
    var k := LastIndexOf(name, '.');
    if k >= 0 then Lower(name)[k..]
    else if name == [] then []
    else Lower(name)[|name| - 1..]
  }

  predicate Accepted(name: string) {
    ClientExtension(name) in AllowedTypes
  }

  /** A name with no '.' is never accepted. */
  lemma NoDotRejected(name: string)
    requires '.' !in name
    ensures !Accepted(name)
  {
  }

  /**
   * A name ending in `.ext` with no '.' in `ext` is accepted exactly when `ext`, in any letter
   * case, is pdf, docx or txt; what comes before the last '.' does not matter.
   */
  lemma AcceptedByLastExtension(stem: string, ext: string)
    requires '.' !in ext
    ensures Accepted(stem + "." + ext) <==> Lower(ext) in ["pdf", "docx", "txt"]
  {
    LastDot(stem, ext);
    LowerSuffix(stem, ext);
    Backend.DottedAllowed(Lower(ext));
  }

  lemma {:induction false} LastDot(stem: string, ext: string)
    requires '.' !in ext
    ensures LastIndexOf(stem + "." + ext, '.') == |stem|
  {
    var name := stem + "." + ext;
    if ext == [] {
      assert name == stem + ".";
    } else {
      var init := ext[..|ext| - 1];
      assert ext[|ext| - 1] in ext;
      assert name[..|name| - 1] == stem + "." + init;
      LastDot(stem, init);
    }
  }

  lemma LowerSuffix(stem: string, ext: string)
    ensures Lower(stem + "." + ext)[|stem|..] == "." + Lower(ext)
  {
    LowerAppend(stem, "." + ext);
    LowerAppend(".", ext);
    assert Lower(".") == ".";
    assert stem + "." + ext == stem + ("." + ext);
  }

  /**
   * The client and the server disagree on a file called ".pdf": the client sends it and the
   * server refuses it, because for the server a leading dot starts a name, not an extension.
   */
  lemma BareExtensionSentThenRefused()
    ensures Accepted(".pdf")
    ensures Backend.CheckUpload(Some(".pdf")).Fail?
  {
    AcceptedByLastExtension("", "pdf");
    assert "" + "." + "pdf" == ".pdf";
    assert Lower("pdf") == "pdf";
    Backend.BareExtensionRejected();
  }
}
