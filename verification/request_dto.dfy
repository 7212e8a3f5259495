/** Validation of the C# API's `ChatRequestDto` by its data annotations.
    `[StringLength]` measures `string.Length`, which counts UTF-16 code units,
    and `[Required]` on a string refuses null, empty and whitespace-only
    values. */
module RequestValidation {
  import opened Wrappers
  import Schemas

  const QuestionMaxLength := 2000
  const IdMaxLength := 100

  /** The request body, with the property initialisers as defaults. */
  datatype ChatRequestDto = ChatRequestDto(question: Option<string> := Some(""),
                                           sessionId: Option<string> := None,
                                           userId: Option<string> := None)

  /** `char.IsWhiteSpace`. */
  predicate IsWhiteSpace(c: char) {
    || ('\t' <= c <= '\r') || c == ' '
    || c == '\U{85}' || c == '\U{A0}' || c == '\U{1680}'
    || ('\U{2000}' <= c <= '\U{200A}')
    || c == '\U{2028}' || c == '\U{2029}' || c == '\U{202F}' || c == '\U{205F}'
    || c == '\U{3000}'
  }

  /** `string.Length`: characters outside the Basic Multilingual Plane take
      two UTF-16 code units. */
  function Utf16Length(s: string): (n: nat)
    ensures |s| <= n <= 2 * |s|
  {
    if s == [] then 0 else (if s[0] as int >= 0x1_0000 then 2 else 1) + Utf16Length(s[1..])
  }

  /** `[Required]` with empty strings disallowed. */
  predicate RequiredHolds(value: Option<string>) {
    value.Some? && exists i | 0 <= i < |value.value| :: !IsWhiteSpace(value.value[i])
  }

  /** `[StringLength(max, MinimumLength = min)]`; a null value passes. */
  predicate LengthHolds(value: Option<string>, min: nat, max: nat) {
    value.None? || min <= Utf16Length(value.value) <= max
  }

  predicate IsValid(dto: ChatRequestDto) {
    && RequiredHolds(dto.question)
    && LengthHolds(dto.question, 1, QuestionMaxLength)
    && LengthHolds(dto.sessionId, 0, IdMaxLength)
    && LengthHolds(dto.userId, 0, IdMaxLength)
  }

  /** The question of a valid request: present, not blank, and at most 2000
      code units; the ids are absent or at most 100 code units. */
  lemma ValidRequestFields(dto: ChatRequestDto)
    requires IsValid(dto)
    ensures dto.question.Some? && 1 <= |dto.question.value| <= QuestionMaxLength
    ensures dto.question.value != [] && exists c :: c in dto.question.value && !IsWhiteSpace(c)
    ensures dto.sessionId.Some? ==> |dto.sessionId.value| <= IdMaxLength
    ensures dto.userId.Some? ==> |dto.userId.value| <= IdMaxLength
  {
    var i :| 0 <= i < |dto.question.value| && !IsWhiteSpace(dto.question.value[i]);
    assert dto.question.value[i] in dto.question.value;
  }

  /** A body with no question keeps the initialiser's empty string, which
      fails validation. */
  lemma DefaultRequestIsInvalid()
    ensures !IsValid(ChatRequestDto())
    ensures !IsValid(ChatRequestDto(sessionId := Some("session"), userId := Some("user")))
  {
  }

  /** Every question the C# API accepts is also accepted by the Python
      backend's `ChatRequest`. */
  lemma ValidQuestionPassesBackend(dto: ChatRequestDto)
    requires IsValid(dto)
    ensures Schemas.ParseChatRequest(dto.question) == Some(Schemas.ChatRequest(dto.question.value))
  {
    ValidRequestFields(dto);
  }

  function Repeat(c: char, n: nat): (s: string)
    ensures |s| == n && forall i :: 0 <= i < n ==> s[i] == c
  {
    if n == 0 then [] else [c] + Repeat(c, n - 1)
  }

  lemma {:induction false} Utf16LengthOfAstral(c: char, n: nat)
    requires c as int >= 0x1_0000
    ensures Utf16Length(Repeat(c, n)) == 2 * n
  {
    if n > 0 {
      Utf16LengthOfAstral(c, n - 1);
      assert Repeat(c, n)[1..] == Repeat(c, n - 1);
    }
  }

  /** The converse fails: the backend accepts a blank question and 2000
      characters outside the Basic Multilingual Plane, the C# API refuses
      both. */
  lemma BackendAcceptsMore()
    ensures var blank := Some(" ");
      Schemas.ParseChatRequest(blank).Some? && !IsValid(ChatRequestDto(question := blank))
    ensures var emoji := Some(Repeat('\U{1F600}', 2000));
      Schemas.ParseChatRequest(emoji).Some? && !IsValid(ChatRequestDto(question := emoji))
  {
    Utf16LengthOfAstral('\U{1F600}', 2000);
  }
}
