/** Payload policy applied before anything reaches the chat channel
    (src/utils/validation.js). Both checks are pure. */
module Validation {

  import opened Wrappers
  import opened Constants

  datatype Validity = Valid | Invalid(reason: string)

  const TEXT_REQUIRED: string := "Text content is required"
  const TEXT_TOO_LONG: string := "Text length exceeds Discord limit of 2000 characters"
  const FILE_REQUIRED: string := "File is required"
  const FILE_TOO_LARGE: string := "File size exceeds Discord limit of 26214400 bytes"

  /** One part of a multipart request body: `type` tells a file part from a field,
      `size` stands for the length of the part's byte stream. */
  datatype Part = Part(partType: string, filename: string, mimetype: string, size: nat)

  /** `!text` in JavaScript: the text is absent or the empty string. */
  predicate Blank(text: Option<string>) {
    text.None? || text.value == ""
  }

  /** validateText: present, non-empty, at most MAX_TEXT_LENGTH characters (inclusive).
      The emptiness guard is tested before the length guard. */
  function ValidateText(text: Option<string>): (v: Validity)
    ensures v.Valid? <==> text.Some? && 0 < |text.value| <= MAX_TEXT_LENGTH
    ensures Blank(text) ==> v == Invalid(TEXT_REQUIRED)
    ensures text.Some? && |text.value| > MAX_TEXT_LENGTH ==> v == Invalid(TEXT_TOO_LONG)
  {
    if Blank(text) then Invalid(TEXT_REQUIRED)
    else if |text.value| > MAX_TEXT_LENGTH then Invalid(TEXT_TOO_LONG)
    else Valid
  }

  /** validateFile: present and at most MAX_FILE_SIZE bytes (inclusive). */
  function ValidateFile(file: Option<Part>): (v: Validity)
    ensures v.Valid? <==> file.Some? && file.value.size <= MAX_FILE_SIZE
    ensures file.None? ==> v == Invalid(FILE_REQUIRED)
    ensures file.Some? && file.value.size > MAX_FILE_SIZE ==> v == Invalid(FILE_TOO_LARGE)
  {
    if file.None? then Invalid(FILE_REQUIRED)
    else if file.value.size > MAX_FILE_SIZE then Invalid(FILE_TOO_LARGE)
    else Valid
  }
}
