/**
 * The career recommendation page: a profile form of sixteen text fields and
 * an optional PDF, submitted as a multipart payload; the recommendation text
 * that comes back is rendered with "###" headings.
 */
module CareerRecommendation {
  import opened Wrappers
  import opened Text
  import opened Renderer
  import opened Forms

  /** One entry of the form state object. */
  datatype Field = Field(name: string, value: string)

  /** The keys of the form state, in declaration order (the order `for…in` visits them). */
  const FieldNames: seq<string> := [
    "name", "ageGroup", "qualification", "skills", "interests", "workStyle",
    "experience", "subjects", "hobbies", "learningStyle", "priority",
    "personalityType", "preferredIndustries", "longTermGoal", "workingHours",
    "travelWillingness"
  ]

  const ResumePart: string := "resume_pdf"
  const FetchFailed: string := "Failed to fetch recommendations. Please try again."

  function Names(fields: seq<Field>): seq<string> {
    seq(|fields|, i requires 0 <= i < |fields| => fields[i].name)
  }

  function Lookup(fields: seq<Field>, name: string): Option<string> {
    if fields == [] then None
    else if fields[0].name == name then Some(fields[0].value)
    else Lookup(fields[1..], name)
  }

  /** Every field declared, every value empty. */
  function InitialFields(): (r: seq<Field>)
    ensures Names(r) == FieldNames
    ensures forall i :: 0 <= i < |r| ==> r[i].value == ""
  {
    seq(|FieldNames|, i requires 0 <= i < |FieldNames| => Field(FieldNames[i], ""))
  }

  /**
   * `{ ...formData, [name]: value }`: an existing key keeps its place and
   * takes the new value; a new key goes to the end.
   */
  function SetField(fields: seq<Field>, name: string, value: string): seq<Field> {
    if fields == [] then [Field(name, value)]
    else if fields[0].name == name then [Field(name, value)] + fields[1..]
    else [fields[0]] + SetField(fields[1..], name, value)
  }

  /** After the update the key reads the new value and every other key reads what it did. */
  lemma {:induction false} SetFieldLookup(fields: seq<Field>, name: string, value: string, other: string)
    ensures Lookup(SetField(fields, name, value), name) == Some(value)
    ensures other != name ==> Lookup(SetField(fields, name, value), other) == Lookup(fields, other)
  {
    if fields != [] && fields[0].name != name {
      SetFieldLookup(fields[1..], name, value, other);
    }
  }

  /** The key order is kept when the key exists, and grows by the key at the end otherwise. */
  lemma {:induction false} SetFieldNames(fields: seq<Field>, name: string, value: string)
    ensures name in Names(fields) ==> Names(SetField(fields, name, value)) == Names(fields)
    ensures name !in Names(fields) ==> Names(SetField(fields, name, value)) == Names(fields) + [name]
  {
    if fields != [] {
      assert Names(fields) == [fields[0].name] + Names(fields[1..]);
      if fields[0].name != name {
        SetFieldNames(fields[1..], name, value);
        assert Names(SetField(fields, name, value)) == [fields[0].name] + Names(SetField(fields[1..], name, value));
      } else {
        assert Names(SetField(fields, name, value)) == [name] + Names(fields[1..]);
      }
    }
  }

  /** The appended text parts: every field whose value is non-empty (truthy), in order. */
  function FilledParts(fields: seq<Field>): seq<Part> {
    if fields == [] then []
    else
      var last := fields[|fields| - 1];
      FilledParts(fields[..|fields| - 1]) + (if last.value != "" then [TextPart(last.name, last.value)] else [])
  }

  /** The payload of a profile submission: the PDF first if one is selected, then the filled fields. */
  function ProfilePayload(pdf: Option<PdfFile>, fields: seq<Field>): seq<Part> {
    (if pdf.Some? then [FilePart(ResumePart, pdf.value)] else []) + FilledParts(fields)
  }

  /** Filtering distributes over concatenation, so the field order survives. */
  lemma {:induction false} FilledPartsConcat(a: seq<Field>, b: seq<Field>)
    ensures FilledParts(a + b) == FilledParts(a) + FilledParts(b)
    decreases |b|
  {
    if b == [] {
      assert a + b == a;
    } else {
      var b' := b[..|b| - 1];
      assert (a + b)[..|a + b| - 1] == a + b';
      FilledPartsConcat(a, b');
    }
  }

  /** A part is sent for a field exactly when that field's value is non-empty; all parts are text parts. */
  lemma {:induction false} FilledPartsMembers(fields: seq<Field>, p: Part)
    ensures p in FilledParts(fields) <==> p.TextPart? && p.value != "" && Field(p.name, p.value) in fields
    decreases |fields|
  {
    if fields != [] {
      var init := fields[..|fields| - 1];
      FilledPartsMembers(init, p);
      assert fields == init + [fields[|fields| - 1]];
    }
  }

  /** The file goes first and only when one is selected; no other part is a file part. */
  lemma ProfilePayloadFile(pdf: Option<PdfFile>, fields: seq<Field>)
    ensures pdf.Some? <==> (|ProfilePayload(pdf, fields)| > 0 && ProfilePayload(pdf, fields)[0].FilePart?)
    ensures pdf.Some? ==> ProfilePayload(pdf, fields)[0] == FilePart(ResumePart, pdf.value)
    ensures forall p :: p in ProfilePayload(pdf, fields) && p.FilePart? ==> pdf == Some(p.file) && p.name == ResumePart
  {
    var filled := FilledParts(fields);
    forall p | p in filled ensures p.TextPart? {
      FilledPartsMembers(fields, p);
    }
    if pdf.None? && |filled| > 0 {
      assert filled[0] in filled;
    }
  }

  /**
   * The `for…in` loop of the submit handler: append the selected PDF, then
   * each non-empty field in key order.
   */
  method BuildProfilePayload(pdf: Option<PdfFile>, fields: seq<Field>) returns (payload: seq<Part>)
    ensures payload == ProfilePayload(pdf, fields)
  {
    payload := [];
    if pdf.Some? {
      payload := payload + [FilePart(ResumePart, pdf.value)];
    }
    var head := payload;
    var i := 0;
    while i < |fields|
      invariant 0 <= i <= |fields|
      invariant payload == head + FilledParts(fields[..i])
    {
      assert fields[..i + 1][..i] == fields[..i];
      if fields[i].value != "" {
        payload := payload + [TextPart(fields[i].name, fields[i].value)];
      }
      i := i + 1;
    }
    assert fields[..|fields|] == fields;
  }

  /** `err.response?.data?.detail || err.response?.data?.error || fallback` */
  function ProfileErrorMessage(err: HttpError): (r: string)
    ensures r != ""
    ensures Or(Detail(err), "") != "" ==> r == Detail(err).value
    ensures Or(Detail(err), "") == "" && err.response.Some? && Or(err.response.value.data.error, "") != ""
      ==> r == err.response.value.data.error.value
    ensures Or(Detail(err), "") == "" && (err.response.None? || Or(err.response.value.data.error, "") == "")
      ==> r == FetchFailed
  {
    var error := if err.response.Some? then err.response.value.data.error else None;
    Or(Detail(err), Or(error, FetchFailed))
  }

  /** The body of a successful `POST /career/`. */
  datatype CareerResponse = CareerResponse(recommendations: Option<string>, source: Option<string>)

  /** The page state: form fields, selected PDF, last response, loading flag and error banner. */
  class ProfileForm {
    var fields: seq<Field>
    var pdfFile: Option<PdfFile>
    var response: Option<CareerResponse>
    var loading: bool
    var error: string

    /** The form always holds exactly the declared keys, in declaration order. */
    ghost predicate Valid()
      reads this
    {
      Names(fields) == FieldNames
    }

    constructor ()
      ensures Valid()
      ensures fields == InitialFields() && pdfFile.None? && response.None? && !loading && error == ""
    {
      fields := InitialFields();
      pdfFile := None;
      response := None;
      loading := false;
      error := "";
    }

    /** `handleChange`: one input's value is stored under its `name`. */
    method Change(name: string, value: string)
      requires Valid() && name in FieldNames
      modifies this
      ensures Valid()
      ensures fields == SetField(old(fields), name, value)
      ensures Lookup(fields, name) == Some(value)
      ensures forall other :: other != name ==> Lookup(fields, other) == Lookup(old(fields), other)
      ensures pdfFile == old(pdfFile) && response == old(response) && loading == old(loading) && error == old(error)
    {
      SetFieldNames(fields, name, value);
      forall other | other != name
        ensures Lookup(SetField(fields, name, value), other) == Lookup(fields, other)
      {
        SetFieldLookup(fields, name, value, other);
      }
      SetFieldLookup(fields, name, value, name);
      fields := SetField(fields, name, value);
    }

    /**
     * `handlePdfUpload`: nothing selected changes nothing; a rejected file
     * only sets the error; an accepted file is kept and the error cleared.
     */
    method SelectFile(file: Option<PdfFile>)
      requires Valid()
      modifies this
      ensures Valid()
      ensures fields == old(fields) && response == old(response) && loading == old(loading)
      ensures file.None? ==> pdfFile == old(pdfFile) && error == old(error)
      ensures file.Some? && CheckPdf(file.value).Reject? ==>
        pdfFile == old(pdfFile) && error == CheckPdf(file.value).message
      ensures file.Some? && CheckPdf(file.value).Accept? ==> pdfFile == file && error == ""
    {
      if file.None? {
        return;
      }
      var f := file.value;
      if f.size > MaxPdfBytes {
        error := FileTooLarge;
        return;
      }
      if f.mimeType != PdfMimeType {
        error := NotAPdf;
        return;
      }
      pdfFile := file;
      error := "";
    }

    /** The clear button next to the selected file. */
    method ClearFile()
      requires Valid()
      modifies this
      ensures Valid()
      ensures pdfFile.None?
      ensures fields == old(fields) && response == old(response) && loading == old(loading) && error == old(error)
    {
      pdfFile := None;
    }

    /**
     * The synchronous part of `handleSubmit`: set loading, clear the error
     * and the previous response, and build the payload. No field is
     * required, so this never refuses.
     */
    method BeginSubmit() returns (payload: seq<Part>)
      requires Valid()
      modifies this
      ensures Valid()
      ensures loading && error == "" && response.None?
      ensures fields == old(fields) && pdfFile == old(pdfFile)
      ensures payload == ProfilePayload(pdfFile, fields)
    {
      loading := true;
      error := "";
      response := None;
      payload := BuildProfilePayload(pdfFile, fields);
    }

    /** The request succeeded: keep the response, stop loading. */
    method Complete(resp: CareerResponse)
      requires Valid()
      modifies this
      ensures Valid()
      ensures response == Some(resp) && !loading
      ensures fields == old(fields) && pdfFile == old(pdfFile) && error == old(error)
    {
      response := Some(resp);
      loading := false;
    }

    /** The request failed: show the chosen message, stop loading. */
    method Fail(err: HttpError)
      requires Valid()
      modifies this
      ensures Valid()
      ensures error == ProfileErrorMessage(err) && !loading
      ensures fields == old(fields) && pdfFile == old(pdfFile) && response == old(response)
    {
      error := ProfileErrorMessage(err);
      loading := false;
    }

    /** `renderRecommendations`: nothing without recommendation text, else one block per line. */
    function Recommendations(): (blocks: seq<Block>)
      reads this
      ensures response.None? || Or(response.value.recommendations, "") == "" ==> blocks == []
      ensures response.Some? && Or(response.value.recommendations, "") != "" ==>
        var text := response.value.recommendations.value;
        && |blocks| == Count(text, '\n') + 1
        && blocks == Render(text, ProfileMarker)
    {
      if response.Some? && Or(response.value.recommendations, "") != "" then
        RenderLength(response.value.recommendations.value, ProfileMarker);
        Render(response.value.recommendations.value, ProfileMarker)
      else []
    }
  }
}
