/**
 * The standalone resume-upload card: the client-side extension check, the uploading / error /
 * result flags around the upload request, and the "skills by category" grouping of the
 * server's reply. The server's reply is an input.
 */
module ResumeUpload {
  import opened Wrappers
  import FileType

  /** One entry of `extracted_skills.skills_found`; a field may be absent. */
  datatype ExtractedSkill = ExtractedSkill(category: Option<string>, skill: Option<string>, confidence: Option<string>)

  datatype UploadResponse = UploadResponse(filename: string, skillsFound: seq<ExtractedSkill>, totalSkills: int)

  /** What the upload request ends with: the parsed reply, or a failure with the error text, if any. */
  datatype UploadOutcome = Uploaded(response: UploadResponse) | UploadFailed(message: Option<string>)

  /** JavaScript's `v || d` on an optional string: absent and "" are both falsy. */
  function OrElse(v: Option<string>, d: string): string {
    if v.Some? && v.value != "" then v.value else d
  }

  /** The tile label: the skill, else the category, else 'Unknown Skill'. */
  function TileLabel(s: ExtractedSkill): (tile: string)
    ensures tile != ""
    ensures s.skill.Some? && s.skill.value != "" ==> tile == s.skill.value
    ensures OrElse(s.skill, "") == "" && s.category.Some? && s.category.value != "" ==> tile == s.category.value
    ensures OrElse(s.skill, "") == "" && OrElse(s.category, "") == "" ==> tile == "Unknown Skill"
  {
    OrElse(s.skill, OrElse(s.category, "Unknown Skill"))
  }

  function CategoryOf(s: ExtractedSkill): string {
    OrElse(s.category, "Other")
  }

  function NameOf(s: ExtractedSkill): string {
    OrElse(s.skill, "Unknown")
  }

  /** Categories with their skill names, in the order the categories were first seen. */
  type Groups = seq<(string, seq<string>)>

  function Keys(g: Groups): (ks: seq<string>)
    ensures |ks| == |g| && forall i :: 0 <= i < |g| ==> ks[i] == g[i].0
  {
    if g == [] then [] else [g[0].0] + Keys(g[1..])
  }

  predicate DistinctKeys(g: Groups) {
    forall i, j :: 0 <= i < j < |g| ==> g[i].0 != g[j].0
  }

  /** The reducer's step: append `name` to the group of `cat`, opening the group at the end if new. */
  function AddToGroup(g: Groups, cat: string, name: string): (r: Groups)
    requires DistinctKeys(g)
    ensures DistinctKeys(r)
    ensures Keys(r) == if cat in Keys(g) then Keys(g) else Keys(g) + [cat]
  {
    if g == [] then [(cat, [name])]
    else
      DistinctTail(g);
      if g[0].0 == cat then
        var r := [(cat, g[0].1 + [name])] + g[1..];
        DistinctCons(r[0], g[1..]);
        r
      else
        var rest := AddToGroup(g[1..], cat, name);
        DistinctCons(g[0], rest);
        [g[0]] + rest
  }

  lemma DistinctTail(g: Groups)
    requires DistinctKeys(g) && g != []
    ensures DistinctKeys(g[1..]) && g[0].0 !in Keys(g[1..])
    ensures Keys(g) == [g[0].0] + Keys(g[1..])
  {
  }

  lemma DistinctCons(x: (string, seq<string>), g: Groups)
    requires DistinctKeys(g) && x.0 !in Keys(g)
    ensures DistinctKeys([x] + g)
    ensures Keys([x] + g) == [x.0] + Keys(g)
  {
    var r := [x] + g;
    forall i, j | 0 <= i < j < |r|
      ensures r[i].0 != r[j].0
    {
      assert r[j] == g[j - 1];
      if i > 0 {
        assert r[i] == g[i - 1];
      }
    }
  }

  /** The step extends only the group of `cat`, or opens it at the end with `name` alone. */
  lemma AddToGroupNames(g: Groups, cat: string, name: string)
    requires DistinctKeys(g)
    ensures forall i :: 0 <= i < |g| ==> AddToGroup(g, cat, name)[i].1 == if g[i].0 == cat then g[i].1 + [name] else g[i].1
    ensures cat !in Keys(g) ==> AddToGroup(g, cat, name)[|g|] == (cat, [name])
  {
    forall i | 0 <= i < |g|
      ensures AddToGroup(g, cat, name)[i].1 == if g[i].0 == cat then g[i].1 + [name] else g[i].1
    {
      AddToGroupAt(g, cat, name, i);
    }
    if cat !in Keys(g) {
      AddToGroupOpens(g, cat, name);
    }
  }

  lemma {:induction false} AddToGroupAt(g: Groups, cat: string, name: string, i: nat)
    requires DistinctKeys(g) && i < |g|
    ensures AddToGroup(g, cat, name)[i].1 == if g[i].0 == cat then g[i].1 + [name] else g[i].1
  {
    DistinctTail(g);
    if g[0].0 != cat && i > 0 {
      AddToGroupAt(g[1..], cat, name, i - 1);
      assert g[1..][i - 1] == g[i];
    }
  }

  lemma {:induction false} AddToGroupOpens(g: Groups, cat: string, name: string)
    requires DistinctKeys(g) && cat !in Keys(g)
    ensures AddToGroup(g, cat, name)[|g|] == (cat, [name])
  {
    if g != [] {
      DistinctTail(g);
      AddToGroupOpens(g[1..], cat, name);
    }
  }

  /** The reduce over `skills_found`. */
  function Group(skills: seq<ExtractedSkill>): (g: Groups)
    ensures DistinctKeys(g)
  {
    if skills == [] then []
    else
      var last := skills[|skills| - 1];
      AddToGroup(Group(skills[..|skills| - 1]), CategoryOf(last), NameOf(last))
  }

  /** The names of the skills of category `cat`, in input order. */
  function NamesIn(skills: seq<ExtractedSkill>, cat: string): seq<string> {
    if skills == [] then []
    else
      var last := skills[|skills| - 1];
      NamesIn(skills[..|skills| - 1], cat) + (if CategoryOf(last) == cat then [NameOf(last)] else [])
  }

  function Size(g: Groups): nat {
    if g == [] then 0 else |g[0].1| + Size(g[1..])
  }

  /** Exactly the categories of the skills get a group. */
  lemma {:induction false} GroupKeys(skills: seq<ExtractedSkill>)
    ensures forall c :: c in Keys(Group(skills)) <==> exists s :: s in skills && CategoryOf(s) == c
  {
    if skills != [] {
      var init := skills[..|skills| - 1];
      var last := skills[|skills| - 1];
      GroupKeys(init);
      var r := Group(skills);
      forall c
        ensures c in Keys(r) <==> exists s :: s in skills && CategoryOf(s) == c
      {
        if c in Keys(r) && c != CategoryOf(last) {
          var s :| s in init && CategoryOf(s) == c;
          assert s in skills;
        }
        if c in Keys(r) && c == CategoryOf(last) {
          assert last in skills;
        }
        if c !in Keys(r) {
          forall s | s in skills
            ensures CategoryOf(s) != c
          {
            var k :| 0 <= k < |skills| && skills[k] == s;
            if k < |skills| - 1 {
              assert init[k] == s;
            }
          }
        }
      }
    }
  }

  /** Each group lists the names of its category's skills, in input order. */
  lemma GroupNames(skills: seq<ExtractedSkill>)
    ensures forall i :: 0 <= i < |Group(skills)| ==> Group(skills)[i].1 == NamesIn(skills, Group(skills)[i].0)
  {
    forall i | 0 <= i < |Group(skills)|
      ensures Group(skills)[i].1 == NamesIn(skills, Group(skills)[i].0)
    {
      GroupNamesAt(skills, i);
    }
  }

  lemma {:induction false} GroupNamesAt(skills: seq<ExtractedSkill>, i: nat)
    requires i < |Group(skills)|
    ensures Group(skills)[i].1 == NamesIn(skills, Group(skills)[i].0)
  {
    var init := skills[..|skills| - 1];
    var last := skills[|skills| - 1];
    var g := Group(init);
    var r := Group(skills);
    assert r == AddToGroup(g, CategoryOf(last), NameOf(last));
    if i == |g| {
      AddToGroupOpens(g, CategoryOf(last), NameOf(last));
      NamesInAbsent(init, CategoryOf(last));
    } else {
      GroupNamesAt(init, i);
      AddToGroupAt(g, CategoryOf(last), NameOf(last), i);
      assert r[i].0 == Keys(r)[i] == Keys(g)[i] == g[i].0;
    }
  }

  /** A category that got no group collects no names. */
  lemma {:induction false} NamesInAbsent(skills: seq<ExtractedSkill>, cat: string)
    requires cat !in Keys(Group(skills))
    ensures NamesIn(skills, cat) == []
  {
    if skills != [] {
      var init := skills[..|skills| - 1];
      var last := skills[|skills| - 1];
      assert CategoryOf(last) in Keys(Group(skills));
      NamesInAbsent(init, cat);
    }
  }

  /** The group sizes add up to the number of skills. */
  lemma {:induction false} GroupSize(skills: seq<ExtractedSkill>)
    ensures Size(Group(skills)) == |skills|
  {
    if skills != [] {
      var last := skills[|skills| - 1];
      GroupSize(skills[..|skills| - 1]);
      AddToGroupSize(Group(skills[..|skills| - 1]), CategoryOf(last), NameOf(last));
    }
  }

  lemma {:induction false} AddToGroupSize(g: Groups, cat: string, name: string)
    requires DistinctKeys(g)
    ensures Size(AddToGroup(g, cat, name)) == Size(g) + 1
  {
    if g != [] && g[0].0 != cat {
      AddToGroupSize(g[1..], cat, name);
      assert AddToGroup(g, cat, name)[1..] == AddToGroup(g[1..], cat, name);
    }
  }

  class UploadCard {
    var isUploading: bool
    var uploadResult: Option<UploadResponse>
    var error: Option<string>

    constructor ()
      ensures !isUploading && uploadResult == None && error == None
    {
      isUploading := false;
      uploadResult := None;
      error := None;
    }

    /** The synchronous part of `handleFileUpload`. Answers whether the file is sent. */
    method ChooseFile(name: string) returns (sent: bool)
      modifies this
      ensures sent <==> FileType.Accepted(name)
      ensures !sent ==> error == Some("Please upload PDF, DOCX, or TXT files only") &&
                        isUploading == old(isUploading) && uploadResult == old(uploadResult)
      ensures sent ==> isUploading && error == None && uploadResult == None
    {
      if !FileType.Accepted(name) {
        error := Some("Please upload PDF, DOCX, or TXT files only");
        return false;
      }
      isUploading := true;
      error := None;
      uploadResult := None;
      return true;
    }

    /** The end of the request: a result or an error, and uploading is over either way. */
    method OnUploadDone(outcome: UploadOutcome)
      modifies this
      ensures !isUploading
      ensures outcome.Uploaded? ==> uploadResult == Some(outcome.response) && error == old(error)
      ensures outcome.UploadFailed? ==>
                uploadResult == old(uploadResult) && error == Some(OrElse(outcome.message, "Upload failed"))
    {
      match outcome {
        case Uploaded(response) =>
          uploadResult := Some(response);
        case UploadFailed(message) =>
          error := Some(OrElse(message, "Upload failed"));
      }
      isUploading := false;
    }

    /** `handleFileUpload` for a chosen file (absent: nothing happens). */
    method HandleFileUpload(file: Option<string>, outcome: UploadOutcome)
      modifies this
      ensures file.None? ==> isUploading == old(isUploading) && uploadResult == old(uploadResult) && error == old(error)
      ensures file.Some? && !FileType.Accepted(file.value) ==>
                error == Some("Please upload PDF, DOCX, or TXT files only") && uploadResult == old(uploadResult) &&
                isUploading == old(isUploading)
      ensures file.Some? && FileType.Accepted(file.value) ==> !isUploading
      ensures file.Some? && FileType.Accepted(file.value) && outcome.Uploaded? ==>
                uploadResult == Some(outcome.response) && error == None
      ensures file.Some? && FileType.Accepted(file.value) && outcome.UploadFailed? ==>
                uploadResult == None && error == Some(OrElse(outcome.message, "Upload failed"))
    {
      if file.None? {
        return;
      }
      var sent := ChooseFile(file.value);
      if sent {
        OnUploadDone(outcome);
      }
    }
  }
}
