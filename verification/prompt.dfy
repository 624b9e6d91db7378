/**
 * The extraction request sent to the language model: a fixed instruction
 * template followed by at most the first 10000 characters of the page.
 */
module Prompt {
  import opened Text
  import Schema

  /** How many characters of the page text go into the request. */
  const ExcerptLimit: nat := 10000

  /** The JSON skeleton shown to the language model: each field it is asked
      for, with the guidance written beside it, in template order. */
  const RequestedFields: seq<(string, string)> := [
    ("Name", "Full name"),
    ("Credentials", "Professional credentials (MD, PhD, etc.)"),
    ("Titles", "Professional titles and positions"),
    ("Specialty", "Medical specialty/specialties"),
    ("Locations", "Practice locations"),
    ("Areas of Clinical Practice", "Clinical practice areas"),
    ("Diseases Treated", "Diseases and conditions treated"),
    ("Languages", "Languages spoken"),
    ("Undergraduate Degree", "Undergraduate education"),
    ("Medical Degree", "Medical school and degree"),
    ("Residency", "Residency training"),
    ("Fellowship", "Fellowship training"),
    ("Board Certifications", "Board certifications"),
    ("Awards", "Awards and recognition"),
    ("Other", "Other relevant information"),
    ("Last Modified", "Last modified date from page footer, store in YYYY-MM-DD format")
  ]

  /** The names of the requested fields, in template order. */
  function RequestedNames(): (names: seq<string>)
    ensures |names| == |RequestedFields|
    ensures forall k :: 0 <= k < |names| ==> names[k] == RequestedFields[k].0
  {
    seq(|RequestedFields|, k requires 0 <= k < |RequestedFields| => RequestedFields[k].0)
  }

  /** The language model is asked for every column of the table except the
      profile URL, in column order; the URL is never requested. */
  lemma RequestedNamesFollowSchema()
    ensures RequestedNames() == Schema.FieldNames()[..Schema.ProfileUrlColumn] + [Schema.FieldNames()[Schema.LastModifiedColumn]]
    ensures "Profile URL" !in RequestedNames()
  {
  }

  /** One line of the skeleton: `  "Field": "guidance"`. */
  function FieldLine(field: (string, string)): string {
    "  \"" + field.0 + "\": \"" + field.1 + "\""
  }

  /** The lines joined by `",\n"`, as the skeleton separates its entries. */
  function JoinEntries(lines: seq<string>): string
    decreases |lines|
  {
    if |lines| == 0 then ""
    else if |lines| == 1 then lines[0]
    else lines[0] + ",\n" + JoinEntries(lines[1..])
  }

  /** The JSON skeleton as it appears in the request. */
  function Skeleton(): string {
    "{\n"
      + JoinEntries(seq(|RequestedFields|, k requires 0 <= k < |RequestedFields| => FieldLine(RequestedFields[k])))
      + "\n}"
  }

  /** The opening sentence of the request, up to the skeleton. */
  const Intro: string := "\nPlease extract the following information from this Fred Hutchinson Cancer Center provider profile page and return it as JSON:\n\n"

  /** The closing lines of the template, between the skeleton and the page text. */
  const Outro: string := "\n\nExtract only the information that is present. Use empty string if information is not available.\n\nProvider profile content:\n"

  /** Everything in the request before the page text. */
  function Instructions(): string {
    Intro + Skeleton() + Outro
  }

  /** `content[:10000]`: the page text that goes into the request. */
  function Excerpt(content: string): (excerpt: string)
    ensures |excerpt| == if |content| < ExcerptLimit then |content| else ExcerptLimit
    ensures excerpt <= content
  {
    Take(content, ExcerptLimit)
  }

  /** The text that follows the excerpt in the template as written: the
      comment on that template line sits inside the string literal. */
  const CommentTail: string := "  # Limit content to avoid token limits\n"

  /** The request exactly as the template renders it: the one the script
      sends. */
  function PromptAsWritten(content: string): (p: string)
    ensures Instructions() <= p
    ensures |p| == |Instructions()| + |Excerpt(content)| + |CommentTail|
    ensures p[|Instructions()|..|Instructions()| + |Excerpt(content)|] <= content
    ensures |content| <= ExcerptLimit ==> p[|Instructions()|..|Instructions()| + |Excerpt(content)|] == content
    ensures p[|Instructions()| + |Excerpt(content)|..] == CommentTail
  {
    Instructions() + Excerpt(content) + CommentTail
  }

  /** The request as evidently intended: the instructions, the excerpt, a
      line end. */
  function BuildPrompt(content: string): string {
    Instructions() + Excerpt(content) + "\n"
  }

  /** The page text a request carries: what lies between the instructions
      and the final line end. */
  function ExcerptOf(prompt: string): (excerpt: string)
    requires |Instructions()| < |prompt|
  {
    prompt[|Instructions()|..|prompt| - 1]
  }

  /** The request carries the excerpt, and nothing else from the page:
      reading it back gives the page text bounded to its first 10000
      characters, and all of a page that fits. */
  lemma PromptCarriesExcerpt(content: string)
    ensures |Instructions()| < |BuildPrompt(content)| <= |Instructions()| + ExcerptLimit + 1
    ensures ExcerptOf(BuildPrompt(content)) == Excerpt(content)
    ensures BuildPrompt(content)[|BuildPrompt(content)| - 1] == '\n'
    ensures ExcerptOf(BuildPrompt(content)) <= content
    ensures |content| <= ExcerptLimit ==> ExcerptOf(BuildPrompt(content)) == content
  {
  }

  /** Pages that agree on their first 10000 characters (on all of them,
      when a page is shorter) yield the same request, both as the template
      renders it and as intended. */
  lemma PromptSeesOnlyExcerpt(a: string, b: string)
    requires (if |a| < ExcerptLimit then a else a[..ExcerptLimit])
          == (if |b| < ExcerptLimit then b else b[..ExcerptLimit])
    ensures PromptAsWritten(a) == PromptAsWritten(b)
    ensures BuildPrompt(a) == BuildPrompt(b)
  {
    ExcerptIsSlice(a);
    ExcerptIsSlice(b);
  }

  /** `Excerpt` is Python's `content[:10000]`. */
  lemma ExcerptIsSlice(content: string)
    ensures Excerpt(content) == if |content| < ExcerptLimit then content else content[..ExcerptLimit]
  {
  }

  /** The template as written does not end with the page text and a line
      end: the comment text follows the excerpt into the request. */
  lemma PromptAsWrittenCarriesComment(content: string)
    ensures PromptAsWritten(content) != BuildPrompt(content)
    ensures PromptAsWritten(content)[..|Instructions()| + |Excerpt(content)|] == BuildPrompt(content)[..|Instructions()| + |Excerpt(content)|]
    ensures PromptAsWritten(content)[|Instructions()| + |Excerpt(content)|..] == CommentTail
  {
  }
}
