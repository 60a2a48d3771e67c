/** Page generation (`src/single_character.py`): the retry policy around the
    image-edit call, the single-shot variant used by the queue worker, the
    key of the uploaded page and the prompt that embeds the page's scene
    description.

    The image-edit service is foreign: each call's reply is an input to the
    model (`EditReply`). The fixed prose of the prompts is represented by
    stand-in constants; only where the variable text sits in them matters. */
module SingleCharacter {
  import opened Py
  import HandleRate

  /** An in-memory image file: the blob container and path it was read from
      and the `name` attribute it carries. */
  datatype ImageFile = ImageFile(container: string, path: string, name: string)

  /** The job dict handed to the page generators. `deployment` is `None` when
      the dict has no "deployment" key. */
  datatype Payload = Payload(
    pageNum: int,
    previewId: string,
    bookId: string,
    userId: string,
    images: seq<ImageFile>,
    description: seq<Option<string>>,
    text: seq<string>,
    gender: string,
    deployment: Option<HandleRate.Deployment>)

  /** The outcome of one `client.images.edit(...)` call: a response carrying
      the base64 image, a `BadRequestError` with its `str(e)` text, or any
      other exception. */
  datatype EditReply = Edited(b64: string) | BadRequest(message: string) | Unexpected(error: Error)

  // ---------------------------------------------------------------------
  // The prompt (`get_prompt`)

  /** Stand-in for the fixed text before the description. */
  const PromptHead: string := "\n<scene and emotion instructions>\nTEMPLATE DESCRIPTION\n"
  /** Stand-in for the fixed text after the description. */
  const PromptTail: string := "\n<identity replacement and output instructions>\n"
  /** Stand-in for the storybook-context block prepended after a moderation refusal. */
  const StorybookContext: string := "\n<storybook context>\n"

  /** How an f-string renders `desc[0]`: the text, or "None" for a missing description. */
  function Render(d: Option<string>): string {
    if d.Some? then d.value else "None"
  }

  /** `get_prompt(desc)`: the description embedded verbatim between the fixed header and tail. */
  function GetPrompt(desc: string): (p: string)
    ensures |p| == |PromptHead| + |desc| + |PromptTail|
    ensures p[..|PromptHead|] == PromptHead && p[|p| - |PromptTail|..] == PromptTail
  {
    PromptHead + desc + PromptTail
  }

  /** The text between the fixed header and tail of a prompt. */
  function EmbeddedDescription(p: string): string
    requires |p| >= |PromptHead| + |PromptTail|
  {
    p[|PromptHead|..|p| - |PromptTail|]
  }

  /** The description can be read back from the prompt unchanged, so two
      different descriptions never give the same prompt. */
  lemma PromptEmbedsDescription(desc: string)
    ensures EmbeddedDescription(GetPrompt(desc)) == desc
  {
    var p := GetPrompt(desc);
    assert p[|PromptHead|..|p| - |PromptTail|] == desc;
  }

  lemma PromptInjective(d1: string, d2: string)
    requires GetPrompt(d1) == GetPrompt(d2)
    ensures d1 == d2
  {
    PromptEmbedsDescription(d1);
    PromptEmbedsDescription(d2);
  }

  // ---------------------------------------------------------------------
  // The upload key (`upload`)

  const FinalBooks: string := "final-books"

  /** `f"{user_id}/{preview_id}/{book_id}/{page_num}.png"` */
  function BlobName(userId: string, previewId: string, bookId: string, pageNum: int): string {
    userId + "/" + previewId + "/" + bookId + "/" + IntToString(pageNum) + ".png"
  }

  /** Reads a blob name back into its parts. */
  function ParseBlobName(s: string): Option<(string, string, string, int)> {
    var parts := SplitOn(s, '/');
    if |parts| == 4 && EndsWith(parts[3], ".png") then
      Some((parts[0], parts[1], parts[2], ParseInt(parts[3][..|parts[3]| - 4])))
    else None
  }

  lemma NoSlashInNumber(n: int)
    ensures '/' !in IntToString(n) + ".png"
  {
    var s := IntToString(n);
    if n < 0 {
      assert s == "-" + NatToString(-n);
      assert forall i :: 0 <= i < |s| ==> s[i] != '/' by {
        forall i | 0 <= i < |s| ensures s[i] != '/' {
          if i > 0 { assert s[i] == NatToString(-n)[i - 1]; }
        }
      }
    } else {
      assert s == NatToString(n);
    }
    assert (s + ".png")[..|s|] == s;
  }

  lemma BlobNameParts(userId: string, previewId: string, bookId: string, pageNum: int)
    requires '/' !in userId && '/' !in previewId && '/' !in bookId
    ensures SplitOn(BlobName(userId, previewId, bookId, pageNum), '/') == [userId, previewId, bookId, IntToString(pageNum) + ".png"]
  {
    var last := IntToString(pageNum) + ".png";
    var s3 := bookId + ['/'] + last;
    var s2 := previewId + ['/'] + s3;
    BlobNameNested(userId, previewId, bookId, pageNum);
    NoSlashInNumber(pageNum);
    SplitOnNone(last, '/');
    SplitOnConcat(bookId, '/', last);
    SplitOnConcat(previewId, '/', s3);
    SplitOnConcat(userId, '/', s2);
  }

  /** The key with its separators grouped from the right. */
  lemma BlobNameNested(userId: string, previewId: string, bookId: string, pageNum: int)
    ensures BlobName(userId, previewId, bookId, pageNum) ==
      userId + ['/'] + (previewId + ['/'] + (bookId + ['/'] + (IntToString(pageNum) + ".png")))
  {
  }

  /** The key names its user, preview, book and page without loss, as long as
      the three IDs contain no '/'. */
  lemma BlobNameRoundTrip(userId: string, previewId: string, bookId: string, pageNum: int)
    requires '/' !in userId && '/' !in previewId && '/' !in bookId
    ensures ParseBlobName(BlobName(userId, previewId, bookId, pageNum)) == Some((userId, previewId, bookId, pageNum))
  {
    var last := IntToString(pageNum) + ".png";
    BlobNameParts(userId, previewId, bookId, pageNum);
    assert last[..|last| - 4] == IntToString(pageNum);
    assert last[|last| - 4..] == ".png";
    ParseIntToString(pageNum);
  }

  // ---------------------------------------------------------------------
  // The retry loop of `single_character`

  /** Where the `while True` loop leaves off: with a response and the prompt
      that produced it, with no response after a billing refusal, with an
      exception, or still waiting when the given replies run out. */
  datatype Attempt = Responded(b64: string, prompt: string) | NoResponse | Threw(error: Error) | OutOfReplies(prompt: string)

  function RepeatContext(n: nat): string {
    if n == 0 then "" else RepeatContext(n - 1) + StorybookContext
  }

  predicate Billing(m: string) {
    Contains(Lower(m), "billing_hard_limit")
  }

  predicate Moderation(m: string) {
    Contains(Lower(m), "moderation_blocked")
  }

  /** The loop over the replies `replies`, from prompt `prompt`. With
      `concatImages` the moderation branch evaluates `prompt + "\n" + images`
      on the image list and raises `TypeError`, as the source does; without
      it the branch only prepends the storybook context. */
  function RetryLoop(prompt: string, replies: seq<EditReply>, concatImages: bool): Attempt
    decreases |replies|
  {
    if replies == [] then OutOfReplies(prompt)
    else match replies[0]
      case Edited(b) => Responded(b, prompt)
      case Unexpected(e) => Threw(e)
      case BadRequest(m) =>
        if Billing(m) then NoResponse
        else if Moderation(m) then
          if concatImages then Threw(TypeError)
          else RetryLoop(StorybookContext + prompt, replies[1..], concatImages)
        else RetryLoop(prompt, replies[1..], concatImages)
  }

  /** The `while True` loop itself. */
  method RetryEdits(prompt0: string, replies: seq<EditReply>, concatImages: bool) returns (a: Attempt)
    ensures a == RetryLoop(prompt0, replies, concatImages)
  {
    var prompt := prompt0;
    var k := 0;
    while k < |replies|
      invariant 0 <= k <= |replies|
      invariant RetryLoop(prompt0, replies, concatImages) == RetryLoop(prompt, replies[k..], concatImages)
    {
      assert replies[k..][0] == replies[k] && replies[k..][1..] == replies[k + 1..];
      match replies[k]
      case Edited(b) =>
        return Responded(b, prompt);
      case Unexpected(e) =>
        return Threw(e);
      case BadRequest(m) =>
        var text := Lower(m);
        if Contains(text, "billing_hard_limit") {
          return NoResponse;
        } else if Contains(text, "moderation_blocked") {
          if concatImages {
            return Threw(TypeError);
          }
          prompt := StorybookContext + prompt;
        }
      k := k + 1;
    }
    return OutOfReplies(prompt);
  }

  /** The first successful call ends the loop with the prompt unchanged. */
  lemma SuccessEndsLoop(prompt: string, b64: string, rest: seq<EditReply>, concatImages: bool)
    ensures RetryLoop(prompt, [Edited(b64)] + rest, concatImages) == Responded(b64, prompt)
  {
  }

  /** A billing refusal ends the loop with no response, even when the text
      also mentions moderation. */
  lemma BillingStops(prompt: string, m: string, rest: seq<EditReply>, concatImages: bool)
    requires Billing(m)
    ensures RetryLoop(prompt, [BadRequest(m)] + rest, concatImages) == NoResponse
  {
  }

  /** Any other bad request is retried with the prompt unchanged. */
  lemma OtherBadRequestRetries(prompt: string, m: string, rest: seq<EditReply>, concatImages: bool)
    requires !Billing(m) && !Moderation(m)
    ensures RetryLoop(prompt, [BadRequest(m)] + rest, concatImages) == RetryLoop(prompt, rest, concatImages)
  {
    assert ([BadRequest(m)] + rest)[1..] == rest;
  }

  /** As written, the first moderation refusal raises `TypeError` from the
      string-plus-list concatenation, so the context block is never tried. */
  lemma ModerationRaisesTypeError(prompt: string, m: string, rest: seq<EditReply>)
    requires Moderation(m) && !Billing(m)
    ensures RetryLoop(prompt, [BadRequest(m)] + rest, true) == Threw(TypeError)
  {
  }

  /** Without the concatenation, `n` moderation refusals followed by a
      success give the response to the prompt with `n` context blocks in
      front of it. */
  lemma {:induction false} ModerationPrependsContext(prompt: string, ms: seq<string>, b64: string)
    requires forall i :: 0 <= i < |ms| ==> Moderation(ms[i]) && !Billing(ms[i])
    ensures RetryLoop(prompt, seq(|ms|, i requires 0 <= i < |ms| => BadRequest(ms[i])) + [Edited(b64)], false)
      == Responded(b64, RepeatContext(|ms|) + prompt)
    decreases |ms|
  {
    var rs := seq(|ms|, i requires 0 <= i < |ms| => BadRequest(ms[i])) + [Edited(b64)];
    if ms != [] {
      var tail := seq(|ms[1..]|, i requires 0 <= i < |ms[1..]| => BadRequest(ms[1..][i])) + [Edited(b64)];
      assert rs[0] == BadRequest(ms[0]);
      assert rs[1..] == tail;
      ModerationPrependsContext(StorybookContext + prompt, ms[1..], b64);
      ContextShift(|ms| - 1, prompt);
    } else {
      assert rs == [Edited(b64)];
    }
  }

  lemma ContextShift(n: nat, prompt: string)
    ensures RepeatContext(n) + (StorybookContext + prompt) == RepeatContext(n + 1) + prompt
  {
  }

  /** Whatever the replies, the loop only ever prepends whole context blocks:
      the prompt of a response, or of a loop still waiting, is the original
      prompt behind some number of them. */
  lemma {:induction false} PromptOnlyGainsContext(prompt: string, replies: seq<EditReply>, concatImages: bool)
    ensures RetryLoop(prompt, replies, concatImages).Responded? ==>
      exists n: nat :: RetryLoop(prompt, replies, concatImages).prompt == RepeatContext(n) + prompt
    ensures RetryLoop(prompt, replies, concatImages).OutOfReplies? ==>
      exists n: nat :: RetryLoop(prompt, replies, concatImages).prompt == RepeatContext(n) + prompt
    decreases |replies|
  {
    if replies != [] && replies[0].BadRequest? && !Billing(replies[0].message) {
      var m := replies[0].message;
      if Moderation(m) && !concatImages {
        PromptOnlyGainsContext(StorybookContext + prompt, replies[1..], concatImages);
        var a := RetryLoop(prompt, replies, concatImages);
        if a.Responded? || a.OutOfReplies? {
          var n: nat :| a.prompt == RepeatContext(n) + (StorybookContext + prompt);
          ContextShift(n, prompt);
          assert a.prompt == RepeatContext(n + 1) + prompt;
        }
      } else if !Moderation(m) {
        PromptOnlyGainsContext(prompt, replies[1..], concatImages);
      }
    } else {
      assert RepeatContext(0) + prompt == prompt;
    }
  }

  // ---------------------------------------------------------------------
  // `single_character` and `single_character_azure`

  /** The page image a generator uploads: its base64 content and the blob it
      goes to. The base64 decoding and encoding are not modelled. */
  datatype PageImage = PageImage(b64: string, name: string, container: string, blobName: string)

  /** How `single_character` ends: with the page image, with `exit()`, with an
      exception, or waiting for more replies. */
  datatype Outcome = Done(image: PageImage) | Exited | Failed(error: Error) | Waiting(prompt: string)

  /** `single_character(payload)`. `quality` stands for the module global
      `set_quality`, which nothing binds (its import is commented out), so
      the call raises `NameError` when it is `None`. `concatImages` selects
      the moderation branch as written or without its concatenation. */
  method SingleCharacterRun(payload: Payload, quality: Option<string>, replies: seq<EditReply>, concatImages: bool)
      returns (r: Outcome)
    ensures payload.description == [] ==> r == Failed(IndexError)
    ensures payload.description != [] && quality.None? ==> r == Failed(NameError("set_quality"))
    ensures payload.description != [] && quality.Some? ==>
      match RetryLoop(GetPrompt(Render(payload.description[0])), replies, concatImages)
      case Responded(b, _) => r == Done(PageImage(b, "final_image.png", FinalBooks,
          BlobName(payload.userId, payload.previewId, payload.bookId, payload.pageNum)))
      case NoResponse => r == Exited
      case Threw(e) => r == Failed(e)
      case OutOfReplies(p) => r == Waiting(p)
  {
    var desc := Index(payload.description, 0);
    if desc.Raised? {
      return Failed(desc.error);
    }
    var prompt := GetPrompt(Render(desc.value));
    if quality.None? {
      return Failed(NameError("set_quality"));
    }
    var a := RetryEdits(prompt, replies, concatImages);
    match a
    case Responded(b, _) =>
      r := Done(PageImage(b, "final_image.png", FinalBooks,
        BlobName(payload.userId, payload.previewId, payload.bookId, payload.pageNum)));
    case NoResponse =>
      r := Exited;
    case Threw(e) =>
      r := Failed(e);
    case OutOfReplies(p) =>
      r := Waiting(p);
  }

  /** The exception `stitch(image, text, gender)` raises when `text` is a
      list: `str.replace` is looked up on it for the two gender tags, and the
      HTML parser's `rawdata + data` fails for any other tag. */
  function StitchOnList(gender: string): Error {
    if gender == "boy" || gender == "girl" then AttributeError else TypeError
  }

  /** `single_character_azure(payload)` with the reply `reply` of its one
      edit call: no retry, no prompt change, and `None` for any failure of
      the call. `payload["text"]` is a list, so a successful call goes on to
      raise from `stitch`. */
  function SingleCharacterAzure(payload: Payload, reply: EditReply): (r: Result<Option<string>>)
    ensures payload.deployment.None? ==> r == Raised(KeyError("deployment"))
    ensures payload.deployment.Some? && payload.description == [] ==> r == Raised(IndexError)
    ensures payload.deployment.Some? && payload.description != [] ==>
      (reply.Edited? ==> r == Raised(StitchOnList(payload.gender))) &&
      (!reply.Edited? ==> r == Ok(None))
  {
    if payload.deployment.None? then Raised(KeyError("deployment"))
    else
      var desc := Index(payload.description, 0);
      if desc.Raised? then Raised(desc.error)
      else
        var prompt := GetPrompt(Render(desc.value));
        match reply
        case Edited(_) => Raised(StitchOnList(payload.gender))
        case _ => Ok(None)
  }
}
