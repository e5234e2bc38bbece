/**
 * The Information form: the length validator, reading the six social
 * usernames out of a stored social list, writing them back as a fixed list of
 * six JSON-like strings, the icon choice between a new upload and the kept
 * reference, and the submit that performs the upload (when there is one) and
 * exactly one update or create.
 */
module Information {
  import opened Optional

  /** The six social platforms the form knows. */
  datatype Platform = Bitbucket | Codepen | Github | Gitlab | Linkedin | Twitter

  /** The text a stored entry's url must contain to belong to a platform. */
  function Marker(p: Platform): string {
    match p
    case Bitbucket => "bitbucket"
    case Codepen => "codepen"
    case Github => "github"
    case Gitlab => "gitlab"
    case Linkedin => "linkedin"
    case Twitter => "twitter"
  }

  /** The order in which the social list is written. */
  const WriteOrder: seq<Platform> := [Bitbucket, Codepen, Github, Gitlab, Linkedin, Twitter]

  /** The order in which the schema declares the username fields, hence the order of their issues. */
  const SchemaOrder: seq<Platform> := [Github, Gitlab, Bitbucket, Codepen, Twitter, Linkedin]

  /** The six username fields of the form. */
  datatype Usernames = Usernames(github: string, gitlab: string, bitbucket: string,
                                 codepen: string, twitter: string, linkedin: string)

  function Username(u: Usernames, p: Platform): string {
    match p
    case Bitbucket => u.bitbucket
    case Codepen => u.codepen
    case Github => u.github
    case Gitlab => u.gitlab
    case Linkedin => u.linkedin
    case Twitter => u.twitter
  }

  /** A local file the user picked. */
  datatype File = File(name: string)

  /**
   * The value of the untyped `image` field: a stored reference string (the
   * default), the file list a file input produces, or nothing at all.
   */
  datatype Image = Reference(ref: string) | Files(files: seq<File>) | Absent

  /** JavaScript truthiness of the image value: a non-empty string or any file list. */
  predicate ImageTruthy(i: Image) {
    match i
    case Reference(r) => r != ""
    case Files(_) => true
    case Absent => false
  }

  /** `typeof image === "string"`. */
  predicate IsString(i: Image) {
    i.Reference?
  }

  /** The values the form submits. */
  datatype Values = Values(title: string, description: string, image: Image, usernames: Usernames)

  /** An entry of a stored social list: a plain string, or a `{url, value}` object. */
  datatype Entry = Text(text: string) | Link(url: string, value: string)

  /** The stored fields of an Information document. */
  datatype InfoDoc = InfoDoc(title: string, description: string, icon: Option<string>, social: seq<Entry>)

  /** The Information document the form is opened with; an empty `id` is falsy. */
  datatype Information = Information(id: string, doc: InfoDoc)

  // ---------------------------------------------------------------------------
  // Validation

  /**
   * The length of a string as JavaScript counts it: UTF-16 code units, two
   * for a character outside the Basic Multilingual Plane.
   */
  function Utf16Length(s: string): nat
    decreases |s|
  {
    if s == [] then 0 else (if s[0] as int >= 0x1_0000 then 2 else 1) + Utf16Length(s[1..])
  }

  /** Every character counts one or two code units. */
  lemma {:induction false} Utf16LengthBounds(s: string)
    ensures |s| <= Utf16Length(s) <= 2 * |s|
    ensures (forall k :: 0 <= k < |s| ==> s[k] as int < 0x1_0000) ==> Utf16Length(s) == |s|
    decreases |s|
  {
    if s != [] {
      Utf16LengthBounds(s[1..]);
      assert forall k :: 0 <= k < |s| - 1 ==> s[1..][k] == s[k + 1];
    }
  }

  /** The fields a validation issue can be attached to. */
  datatype Field = Title | Description | UsernameOf(p: Platform)

  datatype Issue = Issue(field: Field, message: string)

  /** The most code units a field accepts. */
  function Limit(f: Field): nat {
    match f
    case Title => 128
    case Description => 512
    case UsernameOf(_) => 128
  }

  function Message(f: Field): string {
    match f
    case Title => "Title must be less than 128 characters"
    case Description => "Description must be less than 512 characters"
    case UsernameOf(_) => "Username must be less than 128 characters"
  }

  function FieldValue(v: Values, f: Field): string {
    match f
    case Title => v.title
    case Description => v.description
    case UsernameOf(p) => Username(v.usernames, p)
  }

  predicate TooLong(v: Values, f: Field) {
    Utf16Length(FieldValue(v, f)) > Limit(f)
  }

  /** The issue for one field, if its value is too long. */
  function Check(v: Values, f: Field): seq<Issue> {
    if TooLong(v, f) then [Issue(f, Message(f))] else []
  }

  function CheckAll(v: Values, fs: seq<Field>): seq<Issue>
    decreases |fs|
  {
    if fs == [] then [] else Check(v, fs[0]) + CheckAll(v, fs[1..])
  }

  /** Every field the schema constrains, in schema order; the image is not among them. */
  function SchemaFields(): seq<Field> {
    [Title, Description] + seq(|SchemaOrder|, k requires 0 <= k < |SchemaOrder| => UsernameOf(SchemaOrder[k]))
  }

  /** The validator: one issue per field that is too long, in schema order. */
  function Validate(v: Values): seq<Issue> {
    CheckAll(v, SchemaFields())
  }

  lemma {:induction false} CheckAllIssues(v: Values, fs: seq<Field>)
    ensures forall i :: i in CheckAll(v, fs) <==> i.field in fs && TooLong(v, i.field) && i.message == Message(i.field)
    decreases |fs|
  {
    if fs != [] {
      CheckAllIssues(v, fs[1..]);
      assert forall f :: f in fs <==> f == fs[0] || f in fs[1..];
    }
  }

  lemma {:induction false} SchemaFieldsAll(f: Field)
    ensures f in SchemaFields()
  {
    var fs := SchemaFields();
    if f.UsernameOf? {
      var k := match f.p
               case Github => 0 case Gitlab => 1 case Bitbucket => 2
               case Codepen => 3 case Twitter => 4 case Linkedin => 5;
      assert fs[2 + k] == f;
    } else {
      assert fs[0] == Title && fs[1] == Description;
    }
  }

  /**
   * The validator reports exactly the fields whose value is longer than its
   * limit, each with its message; the image never causes an issue.
   */
  lemma {:induction false} ValidateIssues(v: Values)
    ensures forall i :: i in Validate(v) <==> TooLong(v, i.field) && i.message == Message(i.field)
  {
    CheckAllIssues(v, SchemaFields());
    forall i: Issue | TooLong(v, i.field) && i.message == Message(i.field)
      ensures i in Validate(v)
    {
      SchemaFieldsAll(i.field);
    }
  }

  /** Title at most 128 code units, description at most 512, each username at most 128. */
  predicate WithinLimits(v: Values) {
    && Utf16Length(v.title) <= 128
    && Utf16Length(v.description) <= 512
    && forall p :: Utf16Length(Username(v.usernames, p)) <= 128
  }

  /** A submission is accepted iff it is within the limits; the image is not constrained. */
  lemma {:induction false} ValidateAccepts(v: Values)
    ensures Validate(v) == [] <==> WithinLimits(v)
  {
    if Validate(v) != [] {
      RejectedIsTooLong(v);
    } else {
      AcceptedIsWithin(v);
    }
  }

  lemma {:induction false} RejectedIsTooLong(v: Values)
    requires Validate(v) != []
    ensures !WithinLimits(v)
  {
    ValidateIssues(v);
    var i := Validate(v)[0];
    assert i in Validate(v);
    match i.field
    case Title =>
    case Description =>
    case UsernameOf(p) => assert Utf16Length(Username(v.usernames, p)) > 128;
  }

  lemma {:induction false} AcceptedIsWithin(v: Values)
    requires Validate(v) == []
    ensures WithinLimits(v)
  {
    ValidateIssues(v);
    assert Issue(Title, Message(Title)) !in Validate(v);
    assert Issue(Description, Message(Description)) !in Validate(v);
    forall p ensures Utf16Length(Username(v.usernames, p)) <= 128 {
      assert Issue(UsernameOf(p), Message(UsernameOf(p))) !in Validate(v);
    }
  }

  /** The image value never affects validation. */
  lemma {:induction false} ValidateIgnoresImage(v: Values, other: Image)
    ensures Validate(v.(image := other)) == Validate(v)
  {
    CheckAllIgnoresImage(v, other, SchemaFields());
  }

  lemma {:induction false} CheckAllIgnoresImage(v: Values, other: Image, fs: seq<Field>)
    ensures CheckAll(v.(image := other), fs) == CheckAll(v, fs)
    decreases |fs|
  {
    if fs != [] {
      CheckAllIgnoresImage(v, other, fs[1..]);
    }
  }

  // ---------------------------------------------------------------------------
  // Reading the stored document into the form

  /** `sub` occurs in `s` starting at index `i`. */
  predicate OccursAt(s: string, sub: string, i: int) {
    0 <= i <= |s| - |sub| && s[i..i + |sub|] == sub
  }

  /** `s.includes(sub)`. */
  predicate Includes(s: string, sub: string) {
    exists i :: 0 <= i <= |s| - |sub| && OccursAt(s, sub, i)
  }

  /** An entry is read for a platform iff it is an object whose url contains the platform's marker. */
  predicate Matches(e: Entry, marker: string) {
    e.Link? && Includes(e.url, marker)
  }

  /** The value of the first matching entry, or "" when none matches. */
  function Lookup(social: seq<Entry>, marker: string): string
    decreases |social|
  {
    if social == [] then ""
    else if Matches(social[0], marker) then social[0].value
    else Lookup(social[1..], marker)
  }

  /** When no entry matches, `Lookup` returns "". */
  lemma {:induction false} LookupNoMatch(social: seq<Entry>, marker: string)
    requires forall k :: 0 <= k < |social| ==> !Matches(social[k], marker)
    ensures Lookup(social, marker) == ""
    decreases |social|
  {
    if social != [] {
      assert !Matches(social[0], marker);
      assert forall k :: 0 <= k < |social| - 1 ==> social[1..][k] == social[k + 1];
      LookupNoMatch(social[1..], marker);
    }
  }

  /** `Lookup` returns the value of the first matching entry. */
  lemma {:induction false} LookupFirstMatch(social: seq<Entry>, marker: string, k: nat)
    requires k < |social| && Matches(social[k], marker)
    requires forall j :: 0 <= j < k ==> !Matches(social[j], marker)
    ensures Lookup(social, marker) == social[k].value
    decreases k
  {
    if k > 0 {
      assert !Matches(social[0], marker);
      assert forall j :: 0 <= j < k - 1 ==> social[1..][j] == social[j + 1];
      LookupFirstMatch(social[1..], marker, k - 1);
    }
  }

  /** Plain string entries are never read: removing them does not change any lookup. */
  function Objects(social: seq<Entry>): seq<Entry>
    decreases |social|
  {
    if social == [] then [] else (if social[0].Link? then [social[0]] else []) + Objects(social[1..])
  }

  lemma {:induction false} LookupIgnoresText(social: seq<Entry>, marker: string)
    ensures Lookup(social, marker) == Lookup(Objects(social), marker)
    decreases |social|
  {
    if social != [] {
      LookupIgnoresText(social[1..], marker);
      var rest := Objects(social[1..]);
      if social[0].Link? {
        assert ([social[0]] + rest)[1..] == rest;
      } else {
        assert [] + rest == rest;
      }
    }
  }

  /** The form's initial values for the document it is opened with. */
  function Defaults(data: Option<Information>): Values {
    match data
    case None => Values("", "", Reference(""), Usernames("", "", "", "", "", ""))
    case Some(info) =>
      var s := info.doc.social;
      Values(info.doc.title, info.doc.description, Reference(info.doc.icon.GetOr("")),
             Usernames(Lookup(s, Marker(Github)), Lookup(s, Marker(Gitlab)), Lookup(s, Marker(Bitbucket)),
                       Lookup(s, Marker(Codepen)), Lookup(s, Marker(Twitter)), Lookup(s, Marker(Linkedin))))
  }

  /**
   * Without a document every field starts empty; with one, title, description
   * and icon are copied and each username is looked up by its platform's marker.
   */
  lemma DefaultsFields(data: Option<Information>)
    ensures var v := Defaults(data);
            && (data.None? ==> v.title == "" && v.description == "" && v.image == Reference("")
                               && forall p :: Username(v.usernames, p) == "")
            && (data.Some? ==> v.title == data.value.doc.title && v.description == data.value.doc.description
                               && v.image == Reference(data.value.doc.icon.GetOr(""))
                               && forall p :: Username(v.usernames, p) == Lookup(data.value.doc.social, Marker(p)))
  {
  }

  // ---------------------------------------------------------------------------
  // Writing the form back

  /** The text written for one platform: the url and the username spliced in verbatim, without escaping. */
  function EntryText(url: string, value: string): string {
    "{\"url\":\"" + url + "\",\"value\":\"" + value + "\"}"
  }

  /** The part of an entry text written for a given url that holds the username. */
  function ValueIn(url: string, text: string): string
    requires |text| >= |EntryText(url, "")|
  {
    text[|"{\"url\":\"" + url + "\",\"value\":\""| .. |text| - 2]
  }

  /** The username can be read back verbatim from the text written for a known url. */
  lemma ValueInEntryText(url: string, value: string)
    ensures |EntryText(url, value)| == |EntryText(url, "")| + |value|
    ensures ValueIn(url, EntryText(url, value)) == value
  {
    var head := "{\"url\":\"" + url + "\",\"value\":\"";
    assert EntryText(url, value) == head + value + "\"}";
  }

  /** The social list written: six strings, one per platform in write order, whatever their usernames. */
  function Marshal(u: Usernames, urls: Platform -> string): seq<Entry> {
    seq(|WriteOrder|, k requires 0 <= k < |WriteOrder| => Text(EntryText(urls(WriteOrder[k]), Username(u, WriteOrder[k]))))
  }

  lemma MarshalLayout(u: Usernames, urls: Platform -> string)
    ensures var m := Marshal(u, urls);
            && |m| == 6
            && m[0] == Text(EntryText(urls(Bitbucket), u.bitbucket))
            && m[1] == Text(EntryText(urls(Codepen), u.codepen))
            && m[2] == Text(EntryText(urls(Github), u.github))
            && m[3] == Text(EntryText(urls(Gitlab), u.gitlab))
            && m[4] == Text(EntryText(urls(Linkedin), u.linkedin))
            && m[5] == Text(EntryText(urls(Twitter), u.twitter))
  {
  }

  /**
   * Reading a written list back finds nothing: every written entry is a plain
   * string, and lookups read only objects.
   */
  lemma {:induction false} WrittenListReadsEmpty(u: Usernames, urls: Platform -> string, marker: string)
    ensures Lookup(Marshal(u, urls), marker) == ""
  {
    LookupNoMatch(Marshal(u, urls), marker);
  }

  // ---------------------------------------------------------------------------
  // The submit

  /** An upload happens iff the image value is truthy and not a string: exactly when it is a file list. */
  predicate NeedsUpload(i: Image) {
    ImageTruthy(i) && !IsString(i)
  }

  lemma NeedsUploadIffFiles(i: Image)
    ensures NeedsUpload(i) <==> i.Files?
  {
  }

  /** `values.image[0]`: the first picked file, if any. */
  function FirstFile(i: Image): Option<File> {
    if i.Files? && |i.files| > 0 then Some(i.files[0]) else None
  }

  /** `image?.$id ?? values.image`: the uploaded id if there was an upload, otherwise the image value unchanged. */
  function IconOf(uploaded: Option<string>, i: Image): (icon: Option<string>)
    ensures uploaded.Some? ==> icon == uploaded
    ensures uploaded.None? && i.Reference? ==> icon == Some(i.ref)
    ensures uploaded.None? && !i.Reference? ==> icon.None?
  {
    if uploaded.Some? then uploaded
    else match i
         case Reference(r) => Some(r)
         case _ => None
  }

  /** The document written for the submitted values. */
  function DocFor(v: Values, urls: Platform -> string, icon: Option<string>): InfoDoc {
    InfoDoc(v.title, v.description, icon, Marshal(v.usernames, urls))
  }

  /** A remote call of the submit. */
  datatype InfoCall =
    | Upload(file: Option<File>)
    | UpdateInfo(id: string, doc: InfoDoc)
    | CreateInfo(id: string, doc: InfoDoc)

  /** Update when the document the form was opened with has a truthy id, otherwise create. */
  predicate HasId(data: Option<Information>) {
    data.Some? && data.value.id != ""
  }

  /** The write for a document: an update of the loaded id, or a create under `newId`. */
  function WriteFor(data: Option<Information>, doc: InfoDoc, newId: string): (c: InfoCall)
    ensures HasId(data) <==> c.UpdateInfo?
    ensures HasId(data) ==> c.id == data.value.id
    ensures !c.Upload? && c.doc == doc
  {
    if HasId(data) then UpdateInfo(data.value.id, doc) else CreateInfo(newId, doc)
  }

  /** The store's preconditions: an upload needs a file, an update the document, a create a free id. */
  predicate Accepts(docs: map<string, InfoDoc>, c: InfoCall) {
    match c
    case Upload(f) => f.Some?
    case UpdateInfo(id, _) => id in docs
    case CreateInfo(id, _) => id !in docs
  }

  function Apply(docs: map<string, InfoDoc>, c: InfoCall): map<string, InfoDoc> {
    match c
    case Upload(_) => docs
    case UpdateInfo(id, d) => docs[id := d]
    case CreateInfo(id, d) => docs[id := d]
  }

  predicate Succeeds(docs: map<string, InfoDoc>, c: InfoCall, pos: nat, faults: set<nat>) {
    pos !in faults && Accepts(docs, c)
  }

  /** The calls a submit issues and the store it leaves. */
  datatype Submission = Submission(calls: seq<InfoCall>, docs: map<string, InfoDoc>)

  /**
   * A whole submit, its first call at log position `base`: nothing when
   * validation fails; otherwise the upload when one is needed, and unless the
   * upload fails, the one write. `ids` gives the id the backend generates at
   * a log position.
   */
  function Submit(data: Option<Information>, v: Values, urls: Platform -> string,
                  docs: map<string, InfoDoc>, base: nat, faults: set<nat>, ids: nat -> string): Submission
  {
    if Validate(v) != [] then Submission([], docs) else OnSubmit(data, v, urls, docs, base, faults, ids)
  }

  /** The submit once validation has passed: the upload if needed, then the write unless the upload failed. */
  function OnSubmit(data: Option<Information>, v: Values, urls: Platform -> string,
                    docs: map<string, InfoDoc>, base: nat, faults: set<nat>, ids: nat -> string): Submission
  {
    if !NeedsUpload(v.image) then Write(data, v, urls, IconOf(None, v.image), docs, base, faults, ids)
    else if !Succeeds(docs, Upload(FirstFile(v.image)), base, faults) then Submission([Upload(FirstFile(v.image))], docs)
    else
      var s := Write(data, v, urls, Some(ids(base)), docs, base + 1, faults, ids);
      Submission([Upload(FirstFile(v.image))] + s.calls, s.docs)
  }

  /** The one write of a submit, issued at log position `pos`, and the store it leaves. */
  function Write(data: Option<Information>, v: Values, urls: Platform -> string, icon: Option<string>,
                 docs: map<string, InfoDoc>, pos: nat, faults: set<nat>, ids: nat -> string): Submission
  {
    var w := WriteFor(data, DocFor(v, urls, icon), ids(pos));
    Submission([w], if Succeeds(docs, w, pos, faults) then Apply(docs, w) else docs)
  }

  predicate IsWrite(c: InfoCall) {
    c.UpdateInfo? || c.CreateInfo?
  }

  function Writes(calls: seq<InfoCall>): nat
    decreases |calls|
  {
    if calls == [] then 0 else (if IsWrite(calls[0]) then 1 else 0) + Writes(calls[1..])
  }

  /** The upload was needed and failed: there was no file, or the storage call failed. */
  predicate UploadFails(v: Values, docs: map<string, InfoDoc>, base: nat, faults: set<nat>) {
    NeedsUpload(v.image) && !Succeeds(docs, Upload(FirstFile(v.image)), base, faults)
  }

  /**
   * The write is the only write: an update of the loaded id iff the loaded
   * document has a truthy id, otherwise a create; it carries the title and
   * description as entered, the given icon and the six written social entries;
   * the store changes only if it succeeds, and then holds the written document.
   */
  lemma {:induction false} WriteIsOneWrite(data: Option<Information>, v: Values, urls: Platform -> string, icon: Option<string>,
                        docs: map<string, InfoDoc>, pos: nat, faults: set<nat>, ids: nat -> string)
    ensures var s := Write(data, v, urls, icon, docs, pos, faults, ids);
            var w := s.calls[0];
            && |s.calls| == 1 && Writes(s.calls) == 1 && IsWrite(w)
            && (w.UpdateInfo? <==> HasId(data))
            && (w.UpdateInfo? ==> w.id == data.value.id)
            && w.doc == InfoDoc(v.title, v.description, icon, Marshal(v.usernames, urls))
            && (s.docs != docs ==> Succeeds(docs, w, pos, faults))
            && (Succeeds(docs, w, pos, faults) ==> w.id in s.docs && s.docs[w.id] == w.doc)
  {
    var s := Write(data, v, urls, icon, docs, pos, faults, ids);
    assert s.calls[1..] == [];
  }

  /** A submission the validator rejects issues no call and leaves the store unchanged. */
  lemma SubmitRejected(data: Option<Information>, v: Values, urls: Platform -> string,
                       docs: map<string, InfoDoc>, base: nat, faults: set<nat>, ids: nat -> string)
    requires Validate(v) != []
    ensures Submit(data, v, urls, docs, base, faults, ids) == Submission([], docs)
  {
  }

  /** When the needed upload fails, the upload is the only call: nothing is written and the store is unchanged. */
  lemma {:induction false} SubmitUploadFailure(data: Option<Information>, v: Values, urls: Platform -> string,
                            docs: map<string, InfoDoc>, base: nat, faults: set<nat>, ids: nat -> string)
    requires Validate(v) == [] && UploadFails(v, docs, base, faults)
    ensures var s := Submit(data, v, urls, docs, base, faults, ids);
            s.calls == [Upload(FirstFile(v.image))] && Writes(s.calls) == 0 && s.docs == docs
  {
    var s := Submit(data, v, urls, docs, base, faults, ids);
    assert s.calls[1..] == [];
  }

  /**
   * Otherwise a valid submit uploads first iff the image is a file list, and
   * then issues exactly one write, last, whose icon is the uploaded id after an
   * upload and the kept reference otherwise.
   */
  lemma {:induction false} SubmitWritesOnce(data: Option<Information>, v: Values, urls: Platform -> string,
                         docs: map<string, InfoDoc>, base: nat, faults: set<nat>, ids: nat -> string)
    requires Validate(v) == [] && !UploadFails(v, docs, base, faults)
    ensures var s := Submit(data, v, urls, docs, base, faults, ids);
            var w := s.calls[|s.calls| - 1];
            && |s.calls| == (if NeedsUpload(v.image) then 2 else 1)
            && (s.calls[0].Upload? <==> NeedsUpload(v.image))
            && Writes(s.calls) == 1 && IsWrite(w)
            && (w.UpdateInfo? <==> HasId(data))
            && w.doc.title == v.title && w.doc.description == v.description
            && w.doc.social == Marshal(v.usernames, urls)
            && w.doc.icon == (if NeedsUpload(v.image) then Some(ids(base)) else IconOf(None, v.image))
  {
    var s := Submit(data, v, urls, docs, base, faults, ids);
    if NeedsUpload(v.image) {
      var t := Write(data, v, urls, Some(ids(base)), docs, base + 1, faults, ids);
      WriteIsOneWrite(data, v, urls, Some(ids(base)), docs, base + 1, faults, ids);
      assert s.calls == [Upload(FirstFile(v.image))] + t.calls;
      assert s.calls[1..] == t.calls;
    } else {
      WriteIsOneWrite(data, v, urls, IconOf(None, v.image), docs, base, faults, ids);
    }
  }

  /** The remote side of the Information form: documents, file storage and the call log. */
  class InfoBackend {
    var docs: map<string, InfoDoc>
    var log: seq<InfoCall>
    /** Log positions at which the environment makes a call fail. */
    const faults: set<nat>
    /** The id the backend generates for an upload or a create at a given log position. */
    const ids: nat -> string

    constructor (docs: map<string, InfoDoc>, faults: set<nat>, ids: nat -> string)
      ensures this.docs == docs && log == [] && this.faults == faults && this.ids == ids
    {
      this.docs := docs;
      this.log := [];
      this.faults := faults;
      this.ids := ids;
    }

    /** Issues one call: it is logged, and it changes the store only when it succeeds. */
    method Issue(c: InfoCall) returns (ok: bool)
      modifies this
      ensures log == old(log) + [c]
      ensures ok == Succeeds(old(docs), c, |old(log)|, faults)
      ensures docs == if ok then Apply(old(docs), c) else old(docs)
    {
      ok := Succeeds(docs, c, |log|, faults);
      if ok {
        docs := Apply(docs, c);
      }
      log := log + [c];
    }
  }

  /** `handleSubmit(onSubmit)`: values the validator rejects never reach `onSubmit`. */
  method HandleSubmit(data: Option<Information>, values: Values, urls: Platform -> string, b: InfoBackend)
    modifies b
    ensures var s := Submit(data, values, urls, old(b.docs), |old(b.log)|, b.faults, b.ids);
            b.log == old(b.log) + s.calls && b.docs == s.docs
  {
    if Validate(values) != [] {
      return;
    }
    RunOnSubmit(data, values, urls, b);
  }

  /**
   * `onSubmit`: the upload when the image is truthy and not a string, whose
   * failure ends the submit; then the update or create.
   */
  method RunOnSubmit(data: Option<Information>, values: Values, urls: Platform -> string, b: InfoBackend)
    modifies b
    ensures var s := OnSubmit(data, values, urls, old(b.docs), |old(b.log)|, b.faults, b.ids);
            b.log == old(b.log) + s.calls && b.docs == s.docs
  {
    var image: Option<string> := None;
    if ImageTruthy(values.image) && !IsString(values.image) {
      var id := b.ids(|b.log|);
      var ok := b.Issue(Upload(FirstFile(values.image)));
      if !ok {
        return;
      }
      image := Some(id);
    }
    WriteInformation(data, values, urls, IconOf(image, values.image), b);
  }

  /** Builds the document from the values and issues the update of the loaded id, or else a create. */
  method WriteInformation(data: Option<Information>, values: Values, urls: Platform -> string,
                          icon: Option<string>, b: InfoBackend)
    modifies b
    ensures var s := Write(data, values, urls, icon, old(b.docs), |old(b.log)|, b.faults, b.ids);
            b.log == old(b.log) + s.calls && b.docs == s.docs
  {
    var information := DocFor(values, urls, icon);
    if data.Some? && data.value.id != "" {
      var ok := b.Issue(UpdateInfo(data.value.id, information));
    } else {
      var ok := b.Issue(CreateInfo(b.ids(|b.log|), information));
    }
  }
}
