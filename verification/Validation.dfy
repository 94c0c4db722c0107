/** What the embedded SDK checks of an issue before it sends it. */
module Validation {
  import opened Text
  import opened Base64

  const TITLE_MIN := 3
  const TITLE_MAX := 200
  const DESCRIPTION_MIN := 3
  const DESCRIPTION_MAX := 10_000
  const CONTEXT_MAX := 300
  const EXTERNAL_REFERENCE_MAX := 120
  const ATTACHMENTS_MAX := 5
  const ATTACHMENT_BYTES_MAX := 10 * 1024 * 1024
  const FILENAME_MAX := 200
  const CONTENT_TYPE_MAX := 120
  const METADATA_KEYS := 20
  const METADATA_KEY_MAX := 60
  const METADATA_VALUE_MAX := 500

  datatype Attachment = Attachment(filename: string, contentType: string, content: string)

  /** Metadata values are only promised to be text. */
  datatype MetaValue = TextValue(text: string) | NotText

  /** `None` is a missing field. */
  datatype Issue = Issue(
    subject: Option<string>, description: Option<string>, context: Option<string>, externalReference: Option<string>,
    metadata: seq<(string, MetaValue)>, attachments: seq<Attachment>)

  /** One problem, named by the field it is reported on. */
  datatype Problem =
    | BadSubject | BadDescription | ContextTooLong | ReferenceTooLong
    | TooMuchMetadata | BadKey(key: string) | BadValue(key: string)
    | TooManyFiles | BadFilename(index: nat) | BadContentType(index: nat) | EmptyFile(index: nat) | FileTooBig(index: nat)

  function Or(o: Option<string>): string {
    if o.Some? then o.value else ""
  }

  function Present(b: bool, p: Problem): seq<Problem> {
    if b then [p] else []
  }

  // ----- what may be sent -----

  predicate GoodName(a: Attachment) { 1 <= |a.filename| <= FILENAME_MAX }

  predicate GoodType(a: Attachment) { 1 <= |a.contentType| <= CONTENT_TYPE_MAX }

  predicate GoodContent(a: Attachment) { 1 <= DecodedByteLength(a.content) <= ATTACHMENT_BYTES_MAX }

  predicate GoodAttachment(a: Attachment) { GoodName(a) && GoodType(a) && GoodContent(a) }

  predicate AllGood(atts: seq<Attachment>) { forall i :: 0 <= i < |atts| ==> GoodAttachment(atts[i]) }

  predicate GoodAttachments(atts: seq<Attachment>) { |atts| <= ATTACHMENTS_MAX && AllGood(atts) }

  predicate GoodEntry(e: (string, MetaValue)) {
    1 <= |e.0| <= METADATA_KEY_MAX && e.1.TextValue? && |e.1.text| <= METADATA_VALUE_MAX
  }

  predicate AllGoodEntries(entries: seq<(string, MetaValue)>) {
    forall i :: 0 <= i < |entries| ==> GoodEntry(entries[i])
  }

  predicate GoodMetadata(entries: seq<(string, MetaValue)>) {
    |entries| <= METADATA_KEYS && AllGoodEntries(entries)
  }

  predicate Sendable(input: Issue) {
    && GoodSubject(input.subject)
    && GoodDescription(input.description)
    && |Or(input.context)| <= CONTEXT_MAX
    && |Or(input.externalReference)| <= EXTERNAL_REFERENCE_MAX
    && GoodMetadata(input.metadata)
    && GoodAttachments(input.attachments)
  }

  // ----- the problems, in form order -----

  function ContentProblems(content: string, i: nat): seq<Problem> {
    var bytes := DecodedByteLength(content);
    if bytes == 0 then [EmptyFile(i)] else Present(bytes > ATTACHMENT_BYTES_MAX, FileTooBig(i))
  }

  function AttachmentProblems(a: Attachment, i: nat): seq<Problem> {
    Present(!GoodName(a), BadFilename(i)) + Present(!GoodType(a), BadContentType(i)) + ContentProblems(a.content, i)
  }

  function AllAttachmentProblems(atts: seq<Attachment>): seq<Problem> {
    if atts == [] then []
    else AllAttachmentProblems(atts[..|atts| - 1]) + AttachmentProblems(atts[|atts| - 1], |atts| - 1)
  }

  function EntryProblems(e: (string, MetaValue)): seq<Problem> {
    Present(!(1 <= |e.0| <= METADATA_KEY_MAX), BadKey(e.0)) +
    Present(e.1.NotText? || |e.1.text| > METADATA_VALUE_MAX, BadValue(e.0))
  }

  function AllEntryProblems(entries: seq<(string, MetaValue)>): seq<Problem> {
    if entries == [] then [] else AllEntryProblems(entries[..|entries| - 1]) + EntryProblems(entries[|entries| - 1])
  }

  function MetadataProblems(entries: seq<(string, MetaValue)>): seq<Problem> {
    if |entries| > METADATA_KEYS then [TooMuchMetadata] else AllEntryProblems(entries)
  }

  function FileProblems(atts: seq<Attachment>): seq<Problem> {
    if |atts| > ATTACHMENTS_MAX then [TooManyFiles] else AllAttachmentProblems(atts)
  }

  // ----- the validators -----

  /** What one attachment adds to the list. */
  method CheckAttachment(attachment: Attachment, index: nat) returns (problems: seq<Problem>)
    ensures problems == AttachmentProblems(attachment, index)
  {
    hide DecodedByteLength;
    problems := [];
    if attachment.filename == "" || |attachment.filename| > FILENAME_MAX {
      problems := problems + [BadFilename(index)];
    }
    if attachment.contentType == "" || |attachment.contentType| > CONTENT_TYPE_MAX {
      problems := problems + [BadContentType(index)];
    }
    var bytes := DecodedByteLength(attachment.content);
    if bytes == 0 {
      problems := problems + [EmptyFile(index)];
    } else if bytes > ATTACHMENT_BYTES_MAX {
      problems := problems + [FileTooBig(index)];
    }
  }

  method ValidateAttachments(atts: seq<Attachment>) returns (problems: seq<Problem>)
    ensures problems == FileProblems(atts)
    ensures problems == [] <==> GoodAttachments(atts)
  {
    hide AttachmentProblems, GoodAttachments;
    FileProblemsAreComplete(atts);
    if |atts| == 0 {
      return [];
    }
    if |atts| > ATTACHMENTS_MAX {
      return [TooManyFiles];
    }
    problems := [];
    for index := 0 to |atts|
      invariant problems == AllAttachmentProblems(atts[..index])
    {
      var found := CheckAttachment(atts[index], index);
      problems := problems + found;
      assert atts[..index + 1][..index] == atts[..index];
    }
    assert atts[..|atts|] == atts;
  }

  /** What one entry adds to the list. */
  method CheckEntry(entry: (string, MetaValue)) returns (problems: seq<Problem>)
    ensures problems == EntryProblems(entry)
  {
    var (key, value) := entry;
    problems := [];
    if |key| == 0 || |key| > METADATA_KEY_MAX {
      problems := problems + [BadKey(key)];
    }
    if value.NotText? || |value.text| > METADATA_VALUE_MAX {
      problems := problems + [BadValue(key)];
    }
  }

  method ValidateMetadata(entries: seq<(string, MetaValue)>) returns (problems: seq<Problem>)
    ensures problems == MetadataProblems(entries)
    ensures problems == [] <==> GoodMetadata(entries)
  {
    hide EntryProblems, GoodMetadata;
    MetadataProblemsAreComplete(entries);
    if |entries| > METADATA_KEYS {
      return [TooMuchMetadata];
    }
    problems := [];
    for i := 0 to |entries|
      invariant problems == AllEntryProblems(entries[..i])
    {
      var found := CheckEntry(entries[i]);
      problems := problems + found;
      assert entries[..i + 1][..i] == entries[..i];
    }
    assert entries[..|entries|] == entries;
  }

  predicate GoodSubject(subject: Option<string>) { TITLE_MIN <= |Trim(Or(subject))| <= TITLE_MAX }

  predicate GoodDescription(description: Option<string>) {
    DESCRIPTION_MIN <= |Trim(Or(description))| <= DESCRIPTION_MAX
  }

  function TextProblems(subject: Option<string>, description: Option<string>): seq<Problem> {
    Present(!GoodSubject(subject), BadSubject) + Present(!GoodDescription(description), BadDescription)
  }

  function LengthProblems(context: Option<string>, reference: Option<string>): seq<Problem> {
    Present(|Or(context)| > CONTEXT_MAX, ContextTooLong) +
    Present(|Or(reference)| > EXTERNAL_REFERENCE_MAX, ReferenceTooLong)
  }

  /** Every problem, in form order. */
  function IssueProblems(input: Issue): seq<Problem> {
    TextProblems(input.subject, input.description) +
    LengthProblems(input.context, input.externalReference) +
    (MetadataProblems(input.metadata) + FileProblems(input.attachments))
  }

  lemma IssueProblemsAreComplete(input: Issue)
    ensures IssueProblems(input) == [] <==> Sendable(input)
  {
    hide Trim, MetadataProblems, FileProblems, GoodMetadata, GoodAttachments;
    MetadataProblemsAreComplete(input.metadata);
    FileProblemsAreComplete(input.attachments);
  }

  method CheckTexts(subject: Option<string>, description: Option<string>) returns (problems: seq<Problem>)
    ensures problems == TextProblems(subject, description)
  {
    TrimOfSpace("");
    hide Trim;
    problems := [];
    var title := if subject.Some? then Trim(subject.value) else "";
    var text := if description.Some? then Trim(description.value) else "";
    if |title| < TITLE_MIN || |title| > TITLE_MAX {
      problems := problems + [BadSubject];
    }
    if |text| < DESCRIPTION_MIN || |text| > DESCRIPTION_MAX {
      problems := problems + [BadDescription];
    }
  }

  method CheckLengths(context: Option<string>, reference: Option<string>) returns (problems: seq<Problem>)
    ensures problems == LengthProblems(context, reference)
  {
    problems := [];
    if context.Some? && |context.value| > CONTEXT_MAX {
      problems := problems + [ContextTooLong];
    }
    if reference.Some? && |reference.value| > EXTERNAL_REFERENCE_MAX {
      problems := problems + [ReferenceTooLong];
    }
  }

  /** Main: an issue has no problems exactly when it may be sent. */
  method ValidateIssue(input: Issue) returns (problems: seq<Problem>)
    ensures problems == IssueProblems(input)
    ensures problems == [] <==> Sendable(input)
  {
    hide TextProblems, LengthProblems, MetadataProblems, FileProblems, GoodMetadata, GoodAttachments, Sendable;
    IssueProblemsAreComplete(input);
    var texts := CheckTexts(input.subject, input.description);
    var lengths := CheckLengths(input.context, input.externalReference);
    var metadata := ValidateMetadata(input.metadata);
    var files := ValidateAttachments(input.attachments);
    problems := texts + lengths + (metadata + files);
  }

  // ----- completeness -----

  lemma NoProblemsWithOne(a: Attachment, i: nat)
    ensures AttachmentProblems(a, i) == [] <==> GoodAttachment(a)
  {
    hide DecodedByteLength;
    LengthIsNeverNegative(a.content);
  }

  lemma AllGoodByLast(atts: seq<Attachment>)
    requires atts != []
    ensures AllGood(atts) <==> AllGood(atts[..|atts| - 1]) && GoodAttachment(atts[|atts| - 1])
  {
    hide GoodAttachment;
  }

  lemma {:induction false} NoAttachmentProblems(atts: seq<Attachment>)
    ensures AllAttachmentProblems(atts) == [] <==> AllGood(atts)
  {
    if atts != [] {
      hide AttachmentProblems, GoodAttachment, AllGood;
      NoAttachmentProblems(atts[..|atts| - 1]);
      NoProblemsWithOne(atts[|atts| - 1], |atts| - 1);
      AllGoodByLast(atts);
    }
  }

  lemma LengthIsNeverNegative(content: string)
    ensures DecodedByteLength(content) >= 0
  {
    var clean := WithoutSpace(content);
    assert |clean| > 0 && |clean| % 4 == 0 ==> |clean| / 4 * 3 >= 3;
  }

  lemma FileProblemsAreComplete(atts: seq<Attachment>)
    ensures FileProblems(atts) == [] <==> GoodAttachments(atts)
  {
    NoAttachmentProblems(atts);
  }

  lemma NoProblemsWithEntry(e: (string, MetaValue))
    ensures EntryProblems(e) == [] <==> GoodEntry(e)
  {
  }

  lemma GoodEntriesByLast(entries: seq<(string, MetaValue)>)
    requires entries != []
    ensures AllGoodEntries(entries) <==>
      AllGoodEntries(entries[..|entries| - 1]) && GoodEntry(entries[|entries| - 1])
  {
    hide GoodEntry;
  }

  lemma {:induction false} NoEntryProblems(entries: seq<(string, MetaValue)>)
    ensures AllEntryProblems(entries) == [] <==> AllGoodEntries(entries)
  {
    if entries != [] {
      hide EntryProblems, GoodEntry, AllGoodEntries;
      NoEntryProblems(entries[..|entries| - 1]);
      NoProblemsWithEntry(entries[|entries| - 1]);
      GoodEntriesByLast(entries);
    }
  }

  lemma MetadataProblemsAreComplete(entries: seq<(string, MetaValue)>)
    ensures MetadataProblems(entries) == [] <==> GoodMetadata(entries)
  {
    NoEntryProblems(entries);
  }

  /** Main: however its base64 is wrapped, a file is accepted exactly when it has 1 byte to 10 MiB, and otherwise
      reported as empty or as too big. */
  lemma FileIsAcceptedBySize(bytes: seq<Byte>, content: string, i: nat)
    requires WithoutSpace(content) == Encode(bytes)
    ensures ContentProblems(content, i) ==
      if |bytes| == 0 then [EmptyFile(i)] else if |bytes| > ATTACHMENT_BYTES_MAX then [FileTooBig(i)] else []
  {
    LengthOfEncoding(bytes, content);
  }
}
