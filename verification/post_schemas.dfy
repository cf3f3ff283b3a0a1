/** The request and response schemas for posts: the text of a new or
    updated post must be non-empty and, as the validator measures it, at most
    1 MiB; responses carry positive ids. */
module PostSchemas {
  import opened Wrappers
  import opened Models

  /** 1 MiB, the limit the text validators compare against. */
  const MAX_TEXT_BYTES: nat := 1024 * 1024

  /** `sys.getsizeof` of a bytes object is its length plus this header (the
      object header and the trailing NUL byte of 64-bit CPython). */
  const BYTES_OBJECT_OVERHEAD: nat := 33

  datatype PostError =
    | TextTooShort          // `min_length=1` on the text field
    | TextTooLarge(size: nat) // the `ValueError` of `validate_text_size`, with the measured size

  /** The fields a response schema found not greater than zero. */
  datatype ResponseError = NotPositive(fields: seq<string>)

  datatype PostDeleteResponse = PostDeleteResponse(message: string, postId: int)

  /** The number of bytes UTF-8 uses for one character. */
  function Utf8Width(c: char): (w: nat)
    ensures 1 <= w <= 4
    ensures w == 1 <==> c as int < 0x80
  {
    if c as int < 0x80 then 1
    else if c as int < 0x800 then 2
    else if c as int < 0x10000 then 3
    else 4
  }

  /** `len(text.encode("utf-8"))`. */
  function Utf8Length(text: string): (n: nat)
    ensures |text| <= n <= 4 * |text|
  {
    if text == [] then 0 else Utf8Width(text[0]) + Utf8Length(text[1..])
  }

  predicate IsAscii(text: string) {
    forall i :: 0 <= i < |text| ==> text[i] as int < 0x80
  }

  /** ASCII text takes one byte per character. */
  lemma {:induction false} AsciiUtf8Length(text: string)
    requires IsAscii(text)
    ensures Utf8Length(text) == |text|
  {
    if text != [] {
      assert IsAscii(text[1..]) by {
        forall i | 0 <= i < |text| - 1 ensures text[1..][i] as int < 0x80 {
          assert text[1..][i] == text[i + 1];
        }
      }
      AsciiUtf8Length(text[1..]);
    }
  }

  /** `sys.getsizeof(text.encode("utf-8"))`. */
  function SizeOfEncoded(text: string): nat {
    Utf8Length(text) + BYTES_OBJECT_OVERHEAD
  }

  /** `PostCreate.text`: the `min_length=1` constraint, then
      `validate_text_size`, which returns accepted text unchanged. */
  function ValidatePostCreateText(text: string): (r: Result<string, PostError>)
    ensures r.Success? <==> 1 <= |text| && SizeOfEncoded(text) <= MAX_TEXT_BYTES
    ensures r.Success? ==> r.value == text
    ensures r == Failure(TextTooShort) <==> text == []
  {
    if |text| < 1 then Failure(TextTooShort)
    else if SizeOfEncoded(text) > MAX_TEXT_BYTES then Failure(TextTooLarge(SizeOfEncoded(text)))
    else Success(text)
  }

  /** Non-empty ASCII text passes exactly when it has at most
      1 MiB - 33 = 1,048,543 characters. */
  lemma AsciiTextLimit(text: string)
    requires IsAscii(text)
    ensures ValidatePostCreateText(text).Success? <==> 1 <= |text| <= MAX_TEXT_BYTES - BYTES_OBJECT_OVERHEAD
  {
    AsciiUtf8Length(text);
  }

  /** A post of 1,048,577 ASCII letters is refused as too large. */
  lemma OversizedAsciiRejected()
    ensures ValidatePostCreateText(seq(1024 * 1024 + 1, _ => 'A')).Failure?
  {
    AsciiTextLimit(seq(1024 * 1024 + 1, _ => 'A'));
  }

  /** The size rule meant by "at most 1 MiB": the UTF-8 length alone. */
  function ValidatePostTextBytes(text: string): (r: Result<string, PostError>)
    ensures r.Success? <==> 1 <= |text| && Utf8Length(text) <= MAX_TEXT_BYTES
    ensures r.Success? ==> r.value == text
  {
    if |text| < 1 then Failure(TextTooShort)
    else if Utf8Length(text) > MAX_TEXT_BYTES then Failure(TextTooLarge(Utf8Length(text)))
    else Success(text)
  }

  /** The text a stored post may have. */
  predicate ValidPostText(text: string) {
    ValidatePostTextBytes(text).Success?
  }

  /** Everything the validator as written accepts is within 1 MiB of UTF-8,
      so the stricter check never lets oversized text through. */
  lemma AcceptedTextIsValid(text: string)
    requires ValidatePostCreateText(text).Success?
    ensures ValidPostText(text)
  {
  }

  /** The object header counts against the limit: 1,048,544 ASCII bytes, well
      within 1 MiB, are refused by the validator as written and accepted by
      the byte-length rule. */
  lemma HeaderCountsAgainstLimit()
    ensures var text := seq(MAX_TEXT_BYTES - BYTES_OBJECT_OVERHEAD + 1, _ => 'A');
      && Utf8Length(text) <= MAX_TEXT_BYTES
      && ValidatePostCreateText(text).Failure?
      && ValidatePostTextBytes(text).Success?
  {
    var text := seq(MAX_TEXT_BYTES - BYTES_OBJECT_OVERHEAD + 1, _ => 'A');
    AsciiUtf8Length(text);
  }

  /** ASCII text passes the byte-length rule exactly up to 1 MiB. */
  lemma AsciiByteLimit(text: string)
    requires IsAscii(text)
    ensures ValidatePostTextBytes(text).Success? <==> 1 <= |text| <= MAX_TEXT_BYTES
  {
    AsciiUtf8Length(text);
  }

  /** `PostUpdate.text`: `None` passes unchanged; other text obeys the rule of
      `PostCreate`. */
  function ValidatePostUpdateText(text: Option<string>): (r: Result<Option<string>, PostError>)
    ensures r.Success? <==> text.None? || ValidatePostCreateText(text.value).Success?
    ensures r.Success? ==> r.value == text
    ensures text.Some? && r.Failure? ==> r.error == ValidatePostCreateText(text.value).error
  {
    match text
    case None => Success(None)
    case Some(t) =>
      match ValidatePostCreateText(t)
      case Success(_) => Success(text)
      case Failure(e) => Failure(e)
  }

  /** `PostResponse`: `id` and `user_id` must be greater than zero. */
  function ValidatePostResponse(post: Post): (r: Result<Post, ResponseError>)
    ensures r.Success? <==> post.id > 0 && post.userId > 0
    ensures r.Success? ==> r.value == post
    ensures r.Failure? ==> ("id" in r.error.fields <==> post.id <= 0)
    ensures r.Failure? ==> ("user_id" in r.error.fields <==> post.userId <= 0)
  {
    var bad := (if post.id > 0 then [] else ["id"]) + (if post.userId > 0 then [] else ["user_id"]);
    if bad == [] then Success(post) else Failure(NotPositive(bad))
  }

  /** `PostDeleteResponse`: `post_id` must be greater than zero. */
  function ValidateDeleteResponse(message: string, postId: int): (r: Result<PostDeleteResponse, ResponseError>)
    ensures r.Success? <==> postId > 0
    ensures r.Success? ==> r.value.postId == postId && r.value.message == message
  {
    if postId > 0 then Success(PostDeleteResponse(message, postId)) else Failure(NotPositive(["post_id"]))
  }
}
