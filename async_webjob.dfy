/** Stage B of the pipeline (`src/async_webjob.py`): for each preview ID taken
    from the second queue, mark the preview record as started, assemble one
    generation job per preview page, run the jobs, mark the record completed
    and release the ID from the registry.

    The preview record is read from and written to the document store; the
    book record is read from a second, read-only container. Blob downloads,
    the vision model and the page generators for more than one subject are foreign
    and appear as parameters. */
module AsyncWebjob {
  import opened Py
  import DocStore
  import HandleRate
  import SingleCharacter

  type ImageFile = SingleCharacter.ImageFile
  type Payload = SingleCharacter.Payload

  // ---------------------------------------------------------------------
  // Records

  /** One entry of the preview's `characters` roster. */
  datatype Character = Character(key: string, labelText: string, photoUrl: string)

  /** The fields of the preview record the stage reads. */
  datatype Preview = Preview(bookId: string, variant: string, characters: seq<Character>, ownerId: string)

  /** One page of a book. `characterData` gives, for each variant, the keys
      of its `character_data` dict in their order; their values are not read. */
  datatype Page = Page(
    images: map<string, string>,
    characterData: map<string, seq<string>>,
    text: string,
    visionDescription: map<string, string>)

  /** A book record: `metaData.preview_pages` and `pages`. */
  datatype Book = Book(previewPages: seq<int>, pages: seq<Page>)

  /** `fields[k]` read as a string. */
  function StrField(f: DocStore.Fields, k: string): (r: Result<string>)
    ensures r.Ok? <==> k in f && f[k].Str?
    ensures k !in f ==> r == Raised(KeyError(k))
  {
    if k !in f then Raised(KeyError(k))
    else if f[k].Str? then Ok(f[k].s)
    else Raised(TypeError)
  }

  function DecodeCharacter(v: DocStore.Value): Result<Character> {
    if !v.Obj? then Raised(TypeError)
    else
      var key := StrField(v.members, "key");
      if key.Raised? then Raised(key.error) else
      var lbl := StrField(v.members, "label");
      if lbl.Raised? then Raised(lbl.error) else
      var url := StrField(v.members, "photoUrl");
      if url.Raised? then Raised(url.error) else
      Ok(Character(key.value, lbl.value, url.value))
  }

  function DecodeRoster(items: seq<DocStore.Value>): Result<seq<Character>>
    decreases |items|
  {
    if items == [] then Ok([])
    else
      var c := DecodeCharacter(items[0]);
      if c.Raised? then Raised(c.error) else
      var rest := DecodeRoster(items[1..]);
      if rest.Raised? then Raised(rest.error) else
      Ok([c.value] + rest.value)
  }

  /** The reads `book_data["bookId"]`, `["variant"]`, `["characters"]` and
      `["ownerId"]`, in that order. */
  function PreviewOf(f: DocStore.Fields): Result<Preview> {
    var bookId := StrField(f, "bookId");
    if bookId.Raised? then Raised(bookId.error) else
    var variant := StrField(f, "variant");
    if variant.Raised? then Raised(variant.error) else
    if "characters" !in f then Raised(KeyError("characters"))
    else if !f["characters"].Arr? then Raised(TypeError) else
    var roster := DecodeRoster(f["characters"].items);
    if roster.Raised? then Raised(roster.error) else
    var owner := StrField(f, "ownerId");
    if owner.Raised? then Raised(owner.error) else
    Ok(Preview(bookId.value, variant.value, roster.value, owner.value))
  }

  function EncodeCharacter(c: Character): DocStore.Value {
    DocStore.Obj(map["key" := DocStore.Str(c.key), "label" := DocStore.Str(c.labelText), "photoUrl" := DocStore.Str(c.photoUrl)])
  }

  function EncodeRoster(cs: seq<Character>): seq<DocStore.Value> {
    seq(|cs|, i requires 0 <= i < |cs| => EncodeCharacter(cs[i]))
  }

  /** The record fields that store a preview. */
  function EncodePreview(p: Preview): DocStore.Fields {
    map["bookId" := DocStore.Str(p.bookId), "variant" := DocStore.Str(p.variant),
        "characters" := DocStore.Arr(EncodeRoster(p.characters)), "ownerId" := DocStore.Str(p.ownerId)]
  }

  lemma {:induction false} RosterRoundTrip(cs: seq<Character>)
    ensures DecodeRoster(EncodeRoster(cs)) == Ok(cs)
    decreases |cs|
  {
    if cs != [] {
      assert EncodeRoster(cs)[0] == EncodeCharacter(cs[0]);
      assert EncodeRoster(cs)[1..] == EncodeRoster(cs[1..]);
      RosterRoundTrip(cs[1..]);
      assert [cs[0]] + cs[1..] == cs;
    }
  }

  /** A record holding a preview's fields, whatever else it holds, reads back
      as that preview. */
  lemma PreviewRoundTrip(p: Preview, f: DocStore.Fields)
    requires forall k :: k in EncodePreview(p) ==> k in f && f[k] == EncodePreview(p)[k]
    ensures PreviewOf(f) == Ok(p)
  {
    assert "characters" in EncodePreview(p);
    assert f["characters"] == DocStore.Arr(EncodeRoster(p.characters));
    RosterRoundTrip(p.characters);
  }

  // ---------------------------------------------------------------------
  // `replace_text`

  /** `reduce(lambda s, c: s.replace(c["key"], c["label"]), roster, s)` */
  function Substitute(s: string, roster: seq<Character>): string
    decreases |roster|
  {
    if roster == [] then s else Substitute(Replace(s, roster[0].key, roster[0].labelText), roster[1..])
  }

  /** `replace_text(texts, roster)`: every text with the roster's
      substitutions applied in roster order. */
  function ReplaceText(texts: seq<string>, roster: seq<Character>): (r: seq<string>)
    ensures |r| == |texts|
  {
    seq(|texts|, i requires 0 <= i < |texts| => Substitute(texts[i], roster))
  }

  /** An empty roster leaves every text unchanged. */
  lemma ReplaceTextEmptyRoster(texts: seq<string>)
    ensures ReplaceText(texts, []) == texts
  {
  }

  /** The fold over two rosters is the fold over the first followed by the
      fold over the second: the substitutions apply strictly in roster order. */
  lemma {:induction false} SubstituteConcat(s: string, r1: seq<Character>, r2: seq<Character>)
    ensures Substitute(s, r1 + r2) == Substitute(Substitute(s, r1), r2)
    decreases |r1|
  {
    if r1 != [] {
      assert (r1 + r2)[0] == r1[0];
      assert (r1 + r2)[1..] == r1[1..] + r2;
      SubstituteConcat(Replace(s, r1[0].key, r1[0].labelText), r1[1..], r2);
    } else {
      assert r1 + r2 == r2;
    }
  }

  /** A text in which no key of the roster occurs comes through unchanged
      (keys must be non-empty: Python's `replace` with an empty pattern
      inserts the label between all characters). */
  lemma {:induction false} SubstituteAbsent(s: string, roster: seq<Character>)
    requires forall i :: 0 <= i < |roster| ==> roster[i].key != [] && !Contains(s, roster[i].key)
    ensures Substitute(s, roster) == s
    decreases |roster|
  {
    if roster != [] {
      ReplaceAbsent(s, roster[0].key, roster[0].labelText);
      SubstituteAbsent(s, roster[1..]);
    }
  }

  // ---------------------------------------------------------------------
  // `get_image`, `user_description`, `get_user_image_desc`

  /** `image.name` as `get_image` sets it. */
  function ImageName(path: string): string {
    if EndsWith(path, "png") then "template_image.png" else "template_image.jpg"
  }

  /** `get_image(path, blob_client, container)`: the downloaded blob, named
      by the suffix of its path. */
  function GetImage(container: string, path: string): ImageFile {
    SingleCharacter.ImageFile(container, path, ImageName(path))
  }

  /** The MIME type `user_description` puts in the data URL. */
  function MimeType(name: string): string {
    if EndsWith(Lower(name), ".png") then "image/png" else "image/jpeg"
  }

  /** A downloaded image is sent as PNG exactly when its path ends in "png". */
  lemma ImageNameMime(path: string)
    ensures MimeType(ImageName(path)) == "image/png" <==> EndsWith(path, "png")
    ensures MimeType(ImageName(path)) == "image/jpeg" <==> !EndsWith(path, "png")
  {
    var png, jpg := "template_image.png", "template_image.jpg";
    LowerSuffix(png, 4);
    LowerSuffix(jpg, 4);
    assert png[|png| - 4..] == ".png" && Lower(".png") == ".png";
    assert jpg[|jpg| - 4..] == ".jpg" && Lower(".jpg") == ".jpg";
  }

  /** `user_description(image)`: the vision model's `reply`, or the fixed
      fallback when the call raised. */
  function UserDescription(reply: Option<string>): string {
    if reply.Some? then reply.value else "Unable to generate"
  }

  const UserPhotos: string := "https://storyverseblobstorage.blob.core.windows.net/user-photos/"

  /** `photoUrl[len(tmp):]`: the URL with the fixed prefix cut off by length. */
  function PhotoPath(url: string): string {
    DropPrefix(url, |UserPhotos|)
  }

  lemma PhotoPathOfUrl(rest: string)
    ensures PhotoPath(UserPhotos + rest) == rest
  {
    assert (UserPhotos + rest)[|UserPhotos|..] == rest;
  }

  /** `{keys[i]: vals[i] for i in ...}`: a later duplicate key wins. */
  function KeyMap<T>(keys: seq<string>, vals: seq<T>): map<string, T>
    requires |keys| == |vals|
    decreases |keys|
  {
    if keys == [] then map[]
    else KeyMap(keys[..|keys| - 1], vals[..|vals| - 1])[keys[|keys| - 1] := vals[|vals| - 1]]
  }

  /** The map has exactly the given keys, and each maps to the value at its
      last occurrence. */
  lemma {:induction false} KeyMapLastWins<T>(keys: seq<string>, vals: seq<T>)
    requires |keys| == |vals|
    ensures KeyMap(keys, vals).Keys == set k | k in keys
    ensures forall i :: 0 <= i < |keys| && (forall j :: i < j < |keys| ==> keys[j] != keys[i]) ==>
      KeyMap(keys, vals)[keys[i]] == vals[i]
    decreases |keys|
  {
    if keys != [] {
      var n := |keys| - 1;
      var ks, vs := keys[..n], vals[..n];
      KeyMapLastWins(ks, vs);
      assert keys == ks + [keys[n]];
      forall i | 0 <= i < |keys| && (forall j :: i < j < |keys| ==> keys[j] != keys[i])
        ensures KeyMap(keys, vals)[keys[i]] == vals[i]
      {
        if i < n {
          assert keys[n] != keys[i];
          assert ks[i] == keys[i] && vs[i] == vals[i];
          assert forall j :: i < j < |ks| ==> ks[j] != ks[i];
        }
      }
    }
  }

  function RosterKeys(roster: seq<Character>): seq<string> {
    seq(|roster|, i requires 0 <= i < |roster| => roster[i].key)
  }

  /** The reference images of the roster, in roster order. */
  function RosterImages(roster: seq<Character>): seq<ImageFile> {
    seq(|roster|, i requires 0 <= i < |roster| => GetImage("user-photos", PhotoPath(roster[i].photoUrl)))
  }

  /** `get_user_image_desc(roster)` with the vision model's replies `describe`:
      each character's key mapped to its reference image and to its
      description. */
  function GetUserImageDesc(roster: seq<Character>, describe: ImageFile -> Option<string>)
    : (map<string, ImageFile>, map<string, string>)
  {
    var images := RosterImages(roster);
    (KeyMap(RosterKeys(roster), images), KeyMap(RosterKeys(roster), Descriptions(images, describe)))
  }

  /** `user_description` of each image, in order. */
  function Descriptions(images: seq<ImageFile>, describe: ImageFile -> Option<string>): seq<string> {
    seq(|images|, i requires 0 <= i < |images| => UserDescription(describe(images[i])))
  }

  /** The keys listed by the roster are the keys of its characters. */
  lemma RosterKeySet(roster: seq<Character>)
    ensures (set k | k in RosterKeys(roster)) == set c | c in roster :: c.key
  {
    var keys := RosterKeys(roster);
    forall k | k in keys ensures k in set c | c in roster :: c.key {
      var j :| 0 <= j < |keys| && keys[j] == k;
      assert roster[j] in roster;
    }
    forall c | c in roster ensures c.key in keys {
      var j :| 0 <= j < |roster| && roster[j] == c;
      assert keys[j] == c.key;
    }
  }

  /** Both maps have the roster's keys; the `i`-th character, when no later
      character repeats its key, owns the image read from its own URL and
      that image's description. */
  lemma UserImageDescZip(roster: seq<Character>, describe: ImageFile -> Option<string>, i: int)
    requires 0 <= i < |roster|
    requires forall j :: i < j < |roster| ==> roster[j].key != roster[i].key
    ensures GetUserImageDesc(roster, describe).0.Keys == set c | c in roster :: c.key
    ensures GetUserImageDesc(roster, describe).1.Keys == GetUserImageDesc(roster, describe).0.Keys
    ensures GetUserImageDesc(roster, describe).0[roster[i].key] == GetImage("user-photos", PhotoPath(roster[i].photoUrl))
    ensures GetUserImageDesc(roster, describe).1[roster[i].key] ==
      UserDescription(describe(GetImage("user-photos", PhotoPath(roster[i].photoUrl))))
  {
    var keys := RosterKeys(roster);
    var images := RosterImages(roster);
    KeyMapLastWins(keys, images);
    KeyMapLastWins(keys, Descriptions(images, describe));
    RosterKeySet(roster);
    assert forall j :: i < j < |keys| ==> keys[j] != keys[i];
  }

  // ---------------------------------------------------------------------
  // One page of the page loop

  /** Which generator a page goes to. */
  datatype Route = Single | Multi

  /** What one pass of the page loop produces: the generator it picks, the
      job it hands over, and the description list it writes to the record. */
  datatype PageJob = PageJob(route: Route, payload: Payload, userDesc: seq<string>)

  /** `[m[k] for k in keys]`, raising `KeyError` at the first missing key. */
  function LookupAll<T>(keys: seq<string>, m: map<string, T>): (r: Result<seq<T>>)
    ensures r.Ok? <==> forall i :: 0 <= i < |keys| ==> keys[i] in m
    ensures r.Ok? ==> |r.value| == |keys| && forall i :: 0 <= i < |keys| ==> r.value[i] == m[keys[i]]
    decreases |keys|
  {
    if keys == [] then Ok([])
    else if keys[0] !in m then Raised(KeyError(keys[0]))
    else
      var rest := LookupAll(keys[1..], m);
      if rest.Raised? then
        assert exists i :: 1 <= i < |keys| && keys[i] !in m by {
          var j :| 0 <= j < |keys[1..]| && keys[1..][j] !in m;
          assert keys[j + 1] == keys[1..][j];
        }
        Raised(rest.error)
      else
        assert forall i :: 1 <= i < |keys| ==> keys[i] == keys[1..][i - 1];
        Ok([m[keys[0]]] + rest.value)
  }

  /** `f"* {key}: " + descriptions[key]` for each key. */
  function DescriptionLines(keys: seq<string>, descs: seq<string>): seq<string>
    requires |descs| == |keys|
  {
    seq(|keys|, i requires 0 <= i < |keys| => "* " + keys[i] + ": " + descs[i])
  }

  /** One pass of the page loop for page number `p`, after the reference
      images and descriptions are known. The lookups raise in the order of the
      source: the page index, `images[gender]`, `character_data[gender]`,
      then the first page key without a reference image or description. */
  function PageSpec(book: Book, preview: Preview, previewId: string, p: int,
                    userImages: map<string, ImageFile>, descriptions: map<string, string>): Result<PageJob>
  {
    var page := Index(book.pages, p - 1);
    if page.Raised? then Raised(page.error) else
    var gender := preview.variant;
    if gender !in page.value.images then Raised(KeyError(gender)) else
    var template := GetImage("books", page.value.images[gender]);
    if gender !in page.value.characterData then Raised(KeyError(gender)) else
    var keys := page.value.characterData[gender];
    var references := LookupAll(keys, userImages);
    if references.Raised? then Raised(references.error) else
    var descs := LookupAll(keys, descriptions);
    if descs.Raised? then Raised(descs.error) else
    var images := [template] + references.value;
    var userDesc := DescriptionLines(keys, descs.value);
    var vision := if gender in page.value.visionDescription then Some(page.value.visionDescription[gender]) else None;
    var description := [vision] + seq(|userDesc|, i requires 0 <= i < |userDesc| => Some(userDesc[i]));
    var payload := SingleCharacter.Payload(p, previewId, preview.bookId, preview.ownerId, images, description,
                                           ReplaceText([page.value.text], preview.characters), preview.variant, None);
    Ok(PageJob(if |images| == 2 then Single else Multi, payload, userDesc))
  }

  /** Page `p` is `pages[p - 1]` (so page 0 is the last page, as Python
      indexes), and an index outside the list raises `IndexError`. */
  lemma PageIndexing(book: Book, preview: Preview, previewId: string, p: int,
                     userImages: map<string, ImageFile>, descriptions: map<string, string>)
    ensures !(-|book.pages| <= p - 1 < |book.pages|) ==>
      PageSpec(book, preview, previewId, p, userImages, descriptions) == Raised(IndexError)
    ensures 1 <= p <= |book.pages| && preview.variant !in book.pages[p - 1].images ==>
      PageSpec(book, preview, previewId, p, userImages, descriptions) == Raised(KeyError(preview.variant))
  {
  }

  /** The page a job was built from: `pages[p - 1]`. */
  function PageOf(book: Book, p: int): Page
    requires -|book.pages| <= p - 1 < |book.pages|
  {
    Index(book.pages, p - 1).value
  }

  /** A page job lists the template first and then the reference image of
      each page key in key order, and the single-subject generator is chosen
      exactly when there is one reference image. */
  lemma PageJobImages(book: Book, preview: Preview, previewId: string, p: int,
                      userImages: map<string, ImageFile>, descriptions: map<string, string>)
    requires PageSpec(book, preview, previewId, p, userImages, descriptions).Ok?
    ensures -|book.pages| <= p - 1 < |book.pages|
    ensures preview.variant in PageOf(book, p).images && preview.variant in PageOf(book, p).characterData
    ensures
      var j := PageSpec(book, preview, previewId, p, userImages, descriptions).value;
      var keys := PageOf(book, p).characterData[preview.variant];
      && |j.payload.images| == |keys| + 1
      && j.payload.images[0] == GetImage("books", PageOf(book, p).images[preview.variant])
      && (forall i :: 0 <= i < |keys| ==> keys[i] in userImages && j.payload.images[i + 1] == userImages[keys[i]])
      && (j.route == Single <==> |j.payload.images| == 2)
      && (j.route == Single <==> |keys| == 1)
  {
    var page := PageOf(book, p);
    var keys := page.characterData[preview.variant];
    var refs := LookupAll(keys, userImages);
    var j := PageSpec(book, preview, previewId, p, userImages, descriptions).value;
    assert j.payload.images == [GetImage("books", page.images[preview.variant])] + refs.value;
  }

  /** The description list of a page job is the template's vision
      description, `None` when the page has none for the variant, followed by
      one line per page key, in the order of the images; the job carries the
      page number, the variant and the page text after substitution, and no
      deployment. */
  lemma PageJobDescription(book: Book, preview: Preview, previewId: string, p: int,
                           userImages: map<string, ImageFile>, descriptions: map<string, string>)
    requires PageSpec(book, preview, previewId, p, userImages, descriptions).Ok?
    ensures -|book.pages| <= p - 1 < |book.pages|
    ensures preview.variant in PageOf(book, p).characterData
    ensures
      var j := PageSpec(book, preview, previewId, p, userImages, descriptions).value;
      var page := PageOf(book, p);
      var keys := page.characterData[preview.variant];
      && |j.payload.description| == |keys| + 1
      && j.payload.description[0] ==
           (if preview.variant in page.visionDescription then Some(page.visionDescription[preview.variant]) else None)
      && |j.userDesc| == |keys|
      && (forall i :: 0 <= i < |keys| ==>
            && keys[i] in descriptions
            && j.userDesc[i] == "* " + keys[i] + ": " + descriptions[keys[i]]
            && j.payload.description[i + 1] == Some(j.userDesc[i]))
      && j.payload.pageNum == p && j.payload.gender == preview.variant
      && j.payload.text == [Substitute(page.text, preview.characters)]
      && j.payload.deployment.None?
  {
    var page := PageOf(book, p);
    var keys := page.characterData[preview.variant];
    var descs := LookupAll(keys, descriptions);
    var j := PageSpec(book, preview, previewId, p, userImages, descriptions).value;
    assert j.userDesc == DescriptionLines(keys, descs.value);
  }

  // ---------------------------------------------------------------------
  // The page loop

  /** One pass of the page loop for each page number, for one preview and
      its reference images and descriptions. */
  function PageSteps(book: Book, preview: Preview, previewId: string,
                     userImages: map<string, ImageFile>, descriptions: map<string, string>): int -> Result<PageJob> {
    p => PageSpec(book, preview, previewId, p, userImages, descriptions)
  }

  /** The page loop over page numbers `ps`, one pass `spec(p)` per page: the
      jobs of the pages that went through and the exception that stopped the
      loop, if any. */
  function Assemble(ps: seq<int>, spec: int -> Result<PageJob>): (seq<PageJob>, Option<Error>)
    decreases |ps|
  {
    if ps == [] then ([], None)
    else match spec(ps[0])
      case Raised(e) => ([], Some(e))
      case Ok(j) =>
        var rest := Assemble(ps[1..], spec);
        ([j] + rest.0, rest.1)
  }

  /** Without an exception, one job per preview page, in page order; with
      one, the jobs of the pages before the failing page. */
  lemma {:induction false} AssembleAll(ps: seq<int>, spec: int -> Result<PageJob>)
    ensures var a := Assemble(ps, spec);
      && |a.0| <= |ps|
      && (forall i :: 0 <= i < |a.0| ==> spec(ps[i]) == Ok(a.0[i]))
      && (a.1.None? <==> |a.0| == |ps|)
      && (a.1.Some? ==> spec(ps[|a.0|]) == Raised(a.1.value))
    decreases |ps|
  {
    if ps != [] {
      AssembleAll(ps[1..], spec);
      var a := Assemble(ps, spec);
      if spec(ps[0]).Ok? {
        var rest := Assemble(ps[1..], spec);
        assert forall i :: 1 <= i < |a.0| ==> a.0[i] == rest.0[i - 1] && ps[i] == ps[1..][i - 1];
        if a.1.Some? {
          assert ps[|a.0|] == ps[1..][|rest.0|];
        }
      }
    }
  }

  /** `data["user_description"] = user_desc` of `preview_data_cosmos`. */
  function WithUserDescription(f: DocStore.Fields, desc: seq<string>): (r: DocStore.Fields)
    ensures r.Keys == f.Keys + {"user_description"}
    ensures r["user_description"] == DocStore.ListText(desc)
    ensures forall k :: k in f && k != "user_description" ==> r[k] == f[k]
  {
    f["user_description" := DocStore.ListText(desc)]
  }

  /** The per-page writes leave the last page's descriptions. */
  lemma LastDescriptionWins(f: DocStore.Fields, d1: seq<string>, d2: seq<string>)
    ensures WithUserDescription(WithUserDescription(f, d1), d2) == WithUserDescription(f, d2)
  {
  }

  /** The record fields after `modify_start_time(id, name1, name2)`. */
  function WithStart(f: DocStore.Fields, time: string, name1: DocStore.Value, name2: DocStore.Value): (r: DocStore.Fields)
    ensures r.Keys == f.Keys + {"start_time", "status", "deployment_1", "deployment_2"}
    ensures r["start_time"] == DocStore.Str(time) && r["status"] == DocStore.Str("in progress")
    ensures r["deployment_1"] == name1 && r["deployment_2"] == name2
    ensures forall k :: k in f && k !in {"start_time", "status", "deployment_1", "deployment_2"} ==> r[k] == f[k]
  {
    f["start_time" := DocStore.Str(time)]["status" := DocStore.Str("in progress")]
     ["deployment_1" := name1]["deployment_2" := name2]
  }

  /** The record fields after `modify_end_time(id)`. */
  function WithEnd(f: DocStore.Fields, time: string): (r: DocStore.Fields)
    ensures r.Keys == f.Keys + {"end_time", "status"}
    ensures r["end_time"] == DocStore.Str(time) && r["status"] == DocStore.Str("completed")
    ensures forall k :: k in f && k !in {"end_time", "status"} ==> r[k] == f[k]
  {
    f["end_time" := DocStore.Str(time)]["status" := DocStore.Str("completed")]
  }

  /** One step of the page loop from position `k`. */
  lemma AssembleStep(ps: seq<int>, k: int, spec: int -> Result<PageJob>)
    requires 0 <= k < |ps|
    ensures var page := spec(ps[k]);
      var here := Assemble(ps[k..], spec);
      var rest := Assemble(ps[k + 1..], spec);
      && (page.Raised? ==> here == ([], Some(page.error)))
      && (page.Ok? ==> here == ([page.value] + rest.0, rest.1))
  {
    assert ps[k..][0] == ps[k] && ps[k..][1..] == ps[k + 1..];
  }

  /** The record fields after the page loop has kept `jobs`. */
  function AfterPages(f: DocStore.Fields, jobs: seq<PageJob>): DocStore.Fields {
    if jobs == [] then f else WithUserDescription(f, jobs[|jobs| - 1].userDesc)
  }

  /** `preview_data_cosmos(id, user_desc)` for a page that went through,
      which is then kept. */
  method KeepPage(store: DocStore.Container, previewId: string, ghost f0: DocStore.Fields,
                  jobs: seq<PageJob>, job: PageJob) returns (kept: seq<PageJob>)
    requires store.Valid() && previewId in store.docs
    requires store.docs[previewId].fields == AfterPages(f0, jobs)
    modifies store
    ensures kept == jobs + [job]
    ensures store.Valid() && store.docs.Keys == old(store.docs).Keys
    ensures forall d :: d in old(store.docs) && d != previewId ==> store.docs[d] == old(store.docs)[d]
    ensures store.docs[previewId].fields == AfterPages(f0, kept)
  {
    var desc := job.userDesc;
    var written := store.Update(previewId, fields => WithUserDescription(fields, desc));
    LastDescriptionWins(f0, if jobs == [] then [] else jobs[|jobs| - 1].userDesc, desc);
    kept := jobs + [job];
  }

  /** The page loop of `process_message` over the page numbers `ps`, with
      `spec(p)` the pass for page `p`: each page that goes through writes its
      description list to the record before its job is kept. */
  method PageLoop(store: DocStore.Container, previewId: string, ps: seq<int>, spec: int -> Result<PageJob>)
      returns (jobs: seq<PageJob>, err: Option<Error>)
    requires store.Valid() && previewId in store.docs
    modifies store
    ensures store.Valid()
    ensures (jobs, err) == Assemble(ps, spec)
    ensures store.docs.Keys == old(store.docs).Keys
    ensures forall k :: k in old(store.docs) && k != previewId ==> store.docs[k] == old(store.docs)[k]
    ensures store.docs[previewId].fields ==
      if jobs == [] then old(store.docs)[previewId].fields
      else WithUserDescription(old(store.docs)[previewId].fields, jobs[|jobs| - 1].userDesc)
  {
    ghost var all := Assemble(ps, spec);
    ghost var f0 := store.docs[previewId].fields;
    jobs := [];
    err := None;
    var k := 0;
    assert ps[0..] == ps;
    assert [] + all.0 == all.0;
    while k < |ps|
      invariant 0 <= k <= |ps|
      invariant store.Valid() && previewId in store.docs
      invariant all.0 == jobs + Assemble(ps[k..], spec).0
      invariant all.1 == Assemble(ps[k..], spec).1
      invariant store.docs.Keys == old(store.docs).Keys
      invariant forall d :: d in old(store.docs) && d != previewId ==> store.docs[d] == old(store.docs)[d]
      invariant store.docs[previewId].fields == AfterPages(f0, jobs)
    {
      AssembleStep(ps, k, spec);
      var page := spec(ps[k]);
      if page.Raised? {
        assert jobs + [] == jobs;
        return jobs, Some(page.error);
      }
      var job := page.value;
      ghost var rest := Assemble(ps[k + 1..], spec);
      assert jobs + ([job] + rest.0) == (jobs + [job]) + rest.0;
      jobs := KeepPage(store, previewId, f0, jobs, job);
      k := k + 1;
    }
    assert ps[k..] == [];
    assert jobs + [] == jobs;
  }

  // ---------------------------------------------------------------------
  // Running the jobs (`asyncio.gather`)

  /** One page job with its generator: `single_character_azure` given the
      edit reply `edit(payload)`, or the generator for more than one subject,
      whose result is the input `multi(payload)`. */
  function RunJob(j: PageJob, edit: Payload -> SingleCharacter.EditReply,
                  multi: Payload -> Result<Option<string>>): Result<Option<string>> {
    if j.route == Single then SingleCharacter.SingleCharacterAzure(j.payload, edit(j.payload))
    else multi(j.payload)
  }

  /** `asyncio.gather(*image_tasks)`: all results, or the first exception in task order. */
  function Gather(jobs: seq<PageJob>, edit: Payload -> SingleCharacter.EditReply,
                  multi: Payload -> Result<Option<string>>): (r: Result<seq<Option<string>>>)
    ensures r.Ok? ==> |r.value| == |jobs|
    decreases |jobs|
  {
    if jobs == [] then Ok([])
    else
      var first := RunJob(jobs[0], edit, multi);
      if first.Raised? then Raised(first.error)
      else
        var rest := Gather(jobs[1..], edit, multi);
        if rest.Raised? then Raised(rest.error) else Ok([first.value] + rest.value)
  }

  /** The jobs assembled here carry no "deployment" key, so every job routed
      to the single-subject generator raises `KeyError`, and one such page
      makes the whole gather raise. */
  lemma {:induction false} SinglePageFailsGather(jobs: seq<PageJob>, edit: Payload -> SingleCharacter.EditReply,
                                                 multi: Payload -> Result<Option<string>>, i: int)
    requires 0 <= i < |jobs| && jobs[i].route == Single
    requires forall k :: 0 <= k < |jobs| ==> jobs[k].payload.deployment.None?
    ensures RunJob(jobs[i], edit, multi) == Raised(KeyError("deployment"))
    ensures Gather(jobs, edit, multi).Raised?
    decreases |jobs|
  {
    if i > 0 && RunJob(jobs[0], edit, multi).Ok? {
      assert jobs[1..][i - 1] == jobs[i];
      SinglePageFailsGather(jobs[1..], edit, multi, i - 1);
    }
  }

  // ---------------------------------------------------------------------
  // The registry of preview IDs and the worker

  /** The decoded body of a stage-B message: `data`, and the value of
      `.get("deployment_1")`, whose own `"deployment-name"` may be absent. */
  datatype Job = Job(data: Option<string>, deployment1: Option<Option<string>>)

  /** The message stage A publishes, as stage B decodes it. */
  function JobOf(e: HandleRate.Enriched): Job {
    Job(Some(e.data), Some(Some(e.deployment1.name)))
  }

  /** `default.get("deployment-name")` as stored: the name, or `None`. */
  function NameValue(name: Option<string>): DocStore.Value {
    if name.Some? then DocStore.Str(name.value) else DocStore.Null
  }

  class Registry {
    var ids: seq<string>

    constructor ()
      ensures ids == []
    {
      ids := [];
    }

    /** `intermediate(msg)`: register a new ID and report whether processing
        is spawned; an ID already present is dropped. */
    method Intermediate(job: Job) returns (r: Result<bool>)
      modifies this
      ensures job.data.None? ==> r == Raised(KeyError("data")) && ids == old(ids)
      ensures job.data.Some? ==>
        && r == Ok(job.data.value !in old(ids))
        && ids == if job.data.value in old(ids) then old(ids) else old(ids) + [job.data.value]
    {
      if job.data.None? {
        return Raised(KeyError("data"));
      }
      var id := job.data.value;
      if id !in ids {
        ids := ids + [id];
        return Ok(true);
      }
      return Ok(false);
    }

    /** `preview_ids.remove(id)` */
    method Remove(id: string) returns (r: Result<()>)
      modifies this
      ensures id in old(ids) ==> r == Ok(()) && ids == RemoveFirst(old(ids), id)
      ensures id !in old(ids) ==> r == Raised(ValueError) && ids == old(ids)
    {
      if id !in ids {
        return Raised(ValueError);
      }
      ids := RemoveFirst(ids, id);
      return Ok(());
    }
  }

  /** One delivery in `worker`: the message is completed as soon as
      `intermediate` returns, before and whatever the later processing does,
      and abandoned only when `intermediate` raises. */
  method Deliver(registry: Registry, job: Job) returns (s: HandleRate.Settlement, spawned: bool)
    modifies registry
    ensures s == HandleRate.Complete <==> job.data.Some?
    ensures spawned <==> job.data.Some? && job.data.value !in old(registry.ids)
    ensures job.data.Some? ==> job.data.value in registry.ids
    ensures registry.ids ==
      if job.data.Some? && job.data.value !in old(registry.ids) then old(registry.ids) + [job.data.value]
      else old(registry.ids)
  {
    var r := registry.Intermediate(job);
    if r.Raised? {
      return HandleRate.Abandon, false;
    }
    return HandleRate.Complete, r.value;
  }

  // ---------------------------------------------------------------------
  // `process_message`

  /** How `process_message` ends: the job finished and the ID was released,
      it returned early because there were no page jobs, or it raised. */
  datatype JobOutcome =
    | Finished
    | NoPages
    | Failed(error: Error)
      /** The record was marked completed, then `preview_ids.remove` raised `ValueError`. */
    | Unreleased
  {
    /** Whether `modify_end_time` ran. */
    predicate Completed() {
      this == Finished || this == Unreleased
    }
  }

  /** The two `datetime.now()` texts written to the record. */
  datatype StageClock = StageClock(start: string, end: string)

  /** `f` keeps every field of `f0` outside `ks`. */
  predicate KeepsExcept(f0: DocStore.Fields, f: DocStore.Fields, ks: set<string>) {
    forall k :: k in f0 && k !in ks ==> k in f && f[k] == f0[k]
  }

  /** The opening of `process_message`: `json_data["data"]`, the
      deployment name, and `modify_start_time`, whose replace is conditioned
      on the version token it read. */
  method StartJob(previews: DocStore.Container, job: Job, clock: StageClock) returns (r: Result<string>)
    requires previews.Valid()
    modifies previews
    ensures previews.Valid()
    ensures job.data.None? ==> r == Raised(KeyError("data")) && previews.docs == old(previews.docs)
    ensures job.data.Some? && job.deployment1.None? ==> r == Raised(AttributeError) && previews.docs == old(previews.docs)
    ensures job.data.Some? && job.deployment1.Some? && job.data.value !in old(previews.docs) ==>
      r == Raised(IndexError) && previews.docs == old(previews.docs)
    ensures job.data.Some? && job.deployment1.Some? && job.data.value in old(previews.docs) ==>
      var id := job.data.value;
      var name := NameValue(job.deployment1.value);
      && r == Ok(id)
      && previews.docs == old(previews.docs)[id := DocStore.Doc(
           WithStart(old(previews.docs)[id].fields, clock.start, name, name), old(previews.nextToken))]
  {
    if job.data.None? {
      return Raised(KeyError("data"));
    }
    var id := job.data.value;
    if job.deployment1.None? {
      return Raised(AttributeError);
    }
    var name1 := NameValue(job.deployment1.value);
    var name2 := NameValue(job.deployment1.value);
    var started := previews.Update(id, fields => WithStart(fields, clock.start, name1, name2));
    if started.Raised? {
      return Raised(started.error);
    }
    return Ok(id);
  }

  /** The close of `process_message`: `modify_end_time` and
      `preview_ids.remove(id)`. */
  method CompleteJob(registry: Registry, previews: DocStore.Container, id: string, clock: StageClock)
      returns (r: JobOutcome)
    requires previews.Valid() && id in previews.docs
    modifies registry, previews
    ensures previews.Valid()
    ensures previews.docs == old(previews.docs)[id := DocStore.Doc(
      WithEnd(old(previews.docs)[id].fields, clock.end), old(previews.nextToken))]
    ensures id in old(registry.ids) ==> r == Finished && registry.ids == RemoveFirst(old(registry.ids), id)
    ensures id !in old(registry.ids) ==> r == Unreleased && registry.ids == old(registry.ids)
  {
    var ended := previews.Update(id, fields => WithEnd(fields, clock.end));
    var removed := registry.Remove(id);
    if removed.Raised? {
      return Unreleased;
    }
    return Finished;
  }

  /** The page jobs of the preview stored in the record fields `f`: the
      preview's reads, the book lookup, the reference images and descriptions
      of its roster, and the page loop over the book's preview pages. */
  function JobsFor(f: DocStore.Fields, books: map<string, Book>, id: string,
                   describe: ImageFile -> Option<string>): Result<seq<PageJob>> {
    var preview := PreviewOf(f);
    if preview.Raised? then Raised(preview.error)
    else if preview.value.bookId !in books then Raised(NotFound)
    else
      var book := books[preview.value.bookId];
      var roster := GetUserImageDesc(preview.value.characters, describe);
      var a := Assemble(book.previewPages, PageSteps(book, preview.value, id, roster.0, roster.1));
      if a.1.Some? then Raised(a.1.value) else Ok(a.0)
  }

  /** The try block of `process_message`: the page jobs, with the record
      changed only in `user_description`. */
  method BuildJobs(previews: DocStore.Container, books: map<string, Book>, id: string,
                   describe: ImageFile -> Option<string>) returns (r: Result<seq<PageJob>>)
    requires previews.Valid() && id in previews.docs
    modifies previews
    ensures previews.Valid()
    ensures r == JobsFor(old(previews.docs)[id].fields, books, id, describe)
    ensures previews.docs.Keys == old(previews.docs).Keys
    ensures forall k :: k in old(previews.docs) && k != id ==> previews.docs[k] == old(previews.docs)[k]
    ensures KeepsExcept(old(previews.docs)[id].fields, previews.docs[id].fields, {"user_description"})
  {
    var preview := PreviewOf(previews.docs[id].fields);
    if preview.Raised? {
      return Raised(preview.error);
    }
    var bookId := preview.value.bookId;
    if bookId !in books {
      return Raised(NotFound);
    }
    var book := books[bookId];
    var roster := GetUserImageDesc(preview.value.characters, describe);
    var jobs, err := PageLoop(previews, id, book.previewPages, PageSteps(book, preview.value, id, roster.0, roster.1));
    if err.Some? {
      return Raised(err.value);
    }
    return Ok(jobs);
  }

  /** The body of `process_message` after the record is marked started: read
      the preview and the book, assemble the page jobs, gather them, and when
      there was at least one, mark the record completed and release the ID. */
  method RunPageJobs(registry: Registry, previews: DocStore.Container, books: map<string, Book>, id: string,
                     clock: StageClock, describe: ImageFile -> Option<string>,
                     edit: Payload -> SingleCharacter.EditReply, multi: Payload -> Result<Option<string>>)
      returns (r: JobOutcome)
    requires previews.Valid() && id in previews.docs
    modifies registry, previews
    ensures previews.Valid()
    ensures previews.docs.Keys == old(previews.docs).Keys
    ensures forall k :: k in old(previews.docs) && k != id ==> previews.docs[k] == old(previews.docs)[k]
    ensures KeepsExcept(old(previews.docs)[id].fields, previews.docs[id].fields,
                        if r.Completed() then {"user_description", "end_time", "status"} else {"user_description"})
    ensures r.Completed() ==>
      && "status" in previews.docs[id].fields && "end_time" in previews.docs[id].fields
      && previews.docs[id].fields["status"] == DocStore.Str("completed")
      && previews.docs[id].fields["end_time"] == DocStore.Str(clock.end)
    ensures r == Finished ==> id in old(registry.ids) && registry.ids == RemoveFirst(old(registry.ids), id)
    ensures r == Unreleased ==> id !in old(registry.ids)
    ensures r != Finished ==> registry.ids == old(registry.ids)
    ensures var js := JobsFor(old(previews.docs)[id].fields, books, id, describe);
      && (js.Raised? ==> r == Failed(js.error))
      && (js.Ok? ==>
            var g := Gather(js.value, edit, multi);
            && (g.Raised? ==> r == Failed(g.error))
            && (g.Ok? && g.value == [] ==> r == NoPages)
            && (g.Ok? && g.value != [] ==> r.Completed()))
  {
    var jobs := BuildJobs(previews, books, id, describe);
    if jobs.Raised? {
      return Failed(jobs.error);
    }
    var images := Gather(jobs.value, edit, multi);
    if images.Raised? {
      return Failed(images.error);
    }
    if |images.value| == 0 {
      return NoPages;
    }
    r := CompleteJob(registry, previews, id, clock);
  }

  /** The fields no write of this stage touches. */
  predicate Untouched(k: string) {
    k !in {"start_time", "status", "deployment_1", "deployment_2", "user_description", "end_time"}
  }

  /** A record marked started, then changed only where the rest of the job
      writes, keeps the start fields, with the status the job left. */
  lemma StartedRecord(f0: DocStore.Fields, f: DocStore.Fields, clock: StageClock, name: DocStore.Value, completed: bool)
    requires KeepsExcept(WithStart(f0, clock.start, name, name), f,
                         if completed then {"user_description", "end_time", "status"} else {"user_description"})
    requires completed ==>
      && "status" in f && "end_time" in f
      && f["status"] == DocStore.Str("completed") && f["end_time"] == DocStore.Str(clock.end)
    ensures {"start_time", "status", "deployment_1", "deployment_2"} <= f.Keys
    ensures f["start_time"] == DocStore.Str(clock.start) && f["deployment_1"] == name && f["deployment_2"] == name
    ensures f["status"] == DocStore.Str(if completed then "completed" else "in progress")
    ensures forall k :: k in f0 && Untouched(k) ==> k in f && f[k] == f0[k]
  {
    var f1 := WithStart(f0, clock.start, name, name);
    assert "start_time" in f1 && "deployment_1" in f1 && "deployment_2" in f1 && "status" in f1;
  }

  /** `process_message(json_data)`: `books` is the read-only books
      container, `describe` the vision model's replies, `edit` the edit
      service's replies and `multi` the generator for more than one subject.
      The preview ID stays registered unless the job finishes. */
  method ProcessJob(registry: Registry, previews: DocStore.Container, books: map<string, Book>, job: Job,
                    clock: StageClock, describe: ImageFile -> Option<string>,
                    edit: Payload -> SingleCharacter.EditReply, multi: Payload -> Result<Option<string>>)
      returns (r: JobOutcome)
    requires previews.Valid()
    modifies registry, previews
    ensures previews.Valid()
    ensures previews.docs.Keys == old(previews.docs).Keys
    ensures forall k :: k in old(previews.docs) && (job.data.None? || k != job.data.value) ==>
      previews.docs[k] == old(previews.docs)[k]
    ensures r == Finished ==> job.data.Some? && job.data.value in old(registry.ids)
    ensures r == Finished ==> registry.ids == RemoveFirst(old(registry.ids), job.data.value)
    ensures r == Unreleased ==> job.data.Some? && job.data.value !in old(registry.ids)
    ensures r != Finished ==> registry.ids == old(registry.ids)
    ensures job.data.None? ==> r == Failed(KeyError("data"))
    ensures job.data.Some? && job.deployment1.None? ==> r == Failed(AttributeError) && previews.docs == old(previews.docs)
    ensures job.data.Some? && job.deployment1.Some? && job.data.value !in old(previews.docs) ==>
      r == Failed(IndexError) && previews.docs == old(previews.docs)
    ensures job.data.Some? && job.deployment1.Some? && job.data.value in old(previews.docs) ==>
      var f0 := old(previews.docs)[job.data.value].fields;
      var f := previews.docs[job.data.value].fields;
      && {"start_time", "status", "deployment_1", "deployment_2"} <= f.Keys
      && f["start_time"] == DocStore.Str(clock.start)
      && f["deployment_1"] == NameValue(job.deployment1.value)
      && f["deployment_2"] == NameValue(job.deployment1.value)
      && f["status"] == DocStore.Str(if r.Completed() then "completed" else "in progress")
      && (r.Completed() ==> "end_time" in f && f["end_time"] == DocStore.Str(clock.end))
      && (forall k :: k in f0 && Untouched(k) ==> k in f && f[k] == f0[k])
  {
    var started := StartJob(previews, job, clock);
    if started.Raised? {
      return Failed(started.error);
    }
    var id := started.value;
    ghost var f0 := old(previews.docs)[id].fields;
    ghost var name := NameValue(job.deployment1.value);
    assert previews.docs[id].fields == WithStart(f0, clock.start, name, name);
    r := RunPageJobs(registry, previews, books, id, clock, describe, edit, multi);
    StartedRecord(f0, previews.docs[id].fields, clock, name, r.Completed());
  }

  /** A job that came from stage A records deployment_1's name in both
      deployment fields: `deployment_2` is read from `"deployment_1"`. */
  lemma BothDeploymentFieldsFromFirst(e: HandleRate.Enriched, f: DocStore.Fields, time: string)
    ensures
      var job := JobOf(e);
      var s := WithStart(f, time, NameValue(job.deployment1.value), NameValue(job.deployment1.value));
      s["deployment_1"] == DocStore.Str(e.deployment1.name) && s["deployment_2"] == DocStore.Str(e.deployment1.name)
  {
  }
}
