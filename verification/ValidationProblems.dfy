/** Which problems an issue has, one by one, with the limits written out. */
module ValidationProblems {
  import opened Text
  import opened Base64
  import opened Validation

  /** The length of a field without the white space around it; a missing field has none. */
  function TrimmedLength(field: Option<string>): nat {
    if field.Some? then |Trim(field.value)| else 0
  }

  function Length(field: Option<string>): nat {
    if field.Some? then |field.value| else 0
  }

  /** Exactly when the issue has the problem. */
  predicate Wrong(input: Issue, p: Problem) {
    match p
    case BadSubject => !(3 <= TrimmedLength(input.subject) <= 200)
    case BadDescription => !(3 <= TrimmedLength(input.description) <= 10000)
    case ContextTooLong => Length(input.context) > 300
    case ReferenceTooLong => Length(input.externalReference) > 120
    case TooMuchMetadata => |input.metadata| > 20
    case BadKey(key) => |input.metadata| <= 20 && HasKey(input.metadata, key) && !(1 <= |key| <= 60)
    case BadValue(key) => |input.metadata| <= 20 && HasBadValue(input.metadata, key)
    case TooManyFiles => |input.attachments| > 5
    case BadFilename(i) => InList(input, i) && !(1 <= |input.attachments[i].filename| <= 200)
    case BadContentType(i) => InList(input, i) && !(1 <= |input.attachments[i].contentType| <= 120)
    case EmptyFile(i) => InList(input, i) && DecodedByteLength(input.attachments[i].content) == 0
    case FileTooBig(i) => InList(input, i) && DecodedByteLength(input.attachments[i].content) > 10485760
  }

  predicate InList(input: Issue, i: nat) {
    i < |input.attachments| <= 5
  }

  predicate HasKey(entries: seq<(string, MetaValue)>, key: string) {
    exists i :: 0 <= i < |entries| && entries[i].0 == key
  }

  /** Some entry of the key has a value that is no text, or too long. */
  predicate HasBadValue(entries: seq<(string, MetaValue)>, key: string) {
    exists i :: 0 <= i < |entries| && entries[i].0 == key && (entries[i].1.NotText? || |entries[i].1.text| > 500)
  }

  // ----- metadata -----

  predicate IsOfEntries(p: Problem) {
    p.BadKey? || p.BadValue?
  }

  lemma OneEntry(e: (string, MetaValue), p: Problem)
    ensures p in EntryProblems(e) <==>
      || (p == BadKey(e.0) && !(1 <= |e.0| <= 60))
      || (p == BadValue(e.0) && (e.1.NotText? || |e.1.text| > 500))
  {
  }

  predicate WrongEntries(entries: seq<(string, MetaValue)>, p: Problem) {
    || (p.BadKey? && HasKey(entries, p.key) && !(1 <= |p.key| <= 60))
    || (p.BadValue? && HasBadValue(entries, p.key))
  }

  lemma {:induction false} EntriesReported(entries: seq<(string, MetaValue)>, p: Problem)
    ensures p in AllEntryProblems(entries) <==> WrongEntries(entries, p)
  {
    if entries != [] {
      hide EntryProblems, WrongEntries;
      var n := |entries| - 1;
      EntriesReported(entries[..n], p);
      OneEntry(entries[n], p);
      WrongByLast(entries, p);
    } else {
      assert !WrongEntries(entries, p);
    }
  }

  lemma WrongByLast(entries: seq<(string, MetaValue)>, p: Problem)
    requires entries != []
    ensures var n := |entries| - 1;
      WrongEntries(entries, p) <==>
        || WrongEntries(entries[..n], p)
        || (p == BadKey(entries[n].0) && !(1 <= |entries[n].0| <= 60))
        || (p == BadValue(entries[n].0) && (entries[n].1.NotText? || |entries[n].1.text| > 500))
  {
    var n := |entries| - 1;
    assert forall i :: 0 <= i < n ==> entries[..n][i] == entries[i];
  }

  // ----- files -----

  lemma OneFile(a: Attachment, i: nat, p: Problem)
    ensures p in AttachmentProblems(a, i) <==>
      || (p == BadFilename(i) && !(1 <= |a.filename| <= 200))
      || (p == BadContentType(i) && !(1 <= |a.contentType| <= 120))
      || (p == EmptyFile(i) && DecodedByteLength(a.content) == 0)
      || (p == FileTooBig(i) && DecodedByteLength(a.content) > 10485760)
  {
    hide DecodedByteLength;
  }

  predicate WrongFiles(atts: seq<Attachment>, p: Problem) {
    || (p.BadFilename? && p.index < |atts| && !(1 <= |atts[p.index].filename| <= 200))
    || (p.BadContentType? && p.index < |atts| && !(1 <= |atts[p.index].contentType| <= 120))
    || (p.EmptyFile? && p.index < |atts| && DecodedByteLength(atts[p.index].content) == 0)
    || (p.FileTooBig? && p.index < |atts| && DecodedByteLength(atts[p.index].content) > 10485760)
  }

  lemma {:induction false} FilesReported(atts: seq<Attachment>, p: Problem)
    ensures p in AllAttachmentProblems(atts) <==> WrongFiles(atts, p)
  {
    if atts != [] {
      hide DecodedByteLength, AttachmentProblems, WrongFiles;
      var n := |atts| - 1;
      FilesReported(atts[..n], p);
      OneFile(atts[n], n, p);
      WrongFilesByLast(atts, p);
    } else {
      assert !WrongFiles(atts, p);
    }
  }

  lemma WrongFilesByLast(atts: seq<Attachment>, p: Problem)
    requires atts != []
    ensures var n := |atts| - 1;
      WrongFiles(atts, p) <==>
        || WrongFiles(atts[..n], p)
        || (p == BadFilename(n) && !(1 <= |atts[n].filename| <= 200))
        || (p == BadContentType(n) && !(1 <= |atts[n].contentType| <= 120))
        || (p == EmptyFile(n) && DecodedByteLength(atts[n].content) == 0)
        || (p == FileTooBig(n) && DecodedByteLength(atts[n].content) > 10485760)
  {
    hide DecodedByteLength;
  }

  // ----- the whole issue -----

  lemma InTexts(input: Issue, p: Problem)
    ensures p in TextProblems(input.subject, input.description) <==> (p.BadSubject? || p.BadDescription?) && Wrong(input, p)
    ensures p in LengthProblems(input.context, input.externalReference) <==>
      (p.ContextTooLong? || p.ReferenceTooLong?) && Wrong(input, p)
  {
    TrimOfSpace("");
    hide Trim;
  }

  lemma InLists(input: Issue, p: Problem)
    ensures p in MetadataProblems(input.metadata) <==> (p.TooMuchMetadata? || IsOfEntries(p)) && Wrong(input, p)
    ensures p in FileProblems(input.attachments) <==>
      (p.TooManyFiles? || p.BadFilename? || p.BadContentType? || p.EmptyFile? || p.FileTooBig?) && Wrong(input, p)
  {
    hide AllEntryProblems, AllAttachmentProblems, DecodedByteLength, HasKey, HasBadValue, Trim;
    EntriesReported(input.metadata, p);
    FilesReported(input.attachments, p);
  }

  /** Main: a problem is reported exactly when the issue has it. */
  lemma ReportedIffWrong(input: Issue, p: Problem)
    ensures p in IssueProblems(input) <==> Wrong(input, p)
  {
    hide TextProblems, LengthProblems, MetadataProblems, FileProblems, Wrong;
    InTexts(input, p);
    InLists(input, p);
  }

  /** Where the field of a problem stands on the form. */
  function Place(p: Problem): nat {
    match p
    case BadSubject => 0
    case BadDescription => 1
    case ContextTooLong => 2
    case ReferenceTooLong => 3
    case TooMuchMetadata => 4
    case BadKey(_) => 4
    case BadValue(_) => 4
    case TooManyFiles => 5
    case BadFilename(i) => 5 + i
    case BadContentType(i) => 5 + i
    case EmptyFile(i) => 5 + i
    case FileTooBig(i) => 5 + i
  }

  predicate Ordered(ps: seq<Problem>) {
    forall i, j :: 0 <= i < j < |ps| ==> Place(ps[i]) <= Place(ps[j])
  }

  predicate Between(ps: seq<Problem>, low: nat, high: nat) {
    forall p :: p in ps ==> low <= Place(p) <= high
  }

  lemma OrderedConcat(a: seq<Problem>, b: seq<Problem>, low: nat, mid: nat, high: nat)
    requires Ordered(a) && Ordered(b) && Between(a, low, mid) && Between(b, mid, high) && low <= mid <= high
    ensures Ordered(a + b) && Between(a + b, low, high)
  {
    hide Place;
    forall i, j | 0 <= i < j < |a + b| ensures Place((a + b)[i]) <= Place((a + b)[j]) {
      if i < |a| <= j {
        assert a[i] in a && b[j - |a|] in b;
      }
    }
  }

  lemma {:induction false} EntriesInPlace(entries: seq<(string, MetaValue)>)
    ensures Ordered(AllEntryProblems(entries)) && Between(AllEntryProblems(entries), 4, 4)
  {
    if entries != [] {
      var n := |entries| - 1;
      EntriesInPlace(entries[..n]);
      OrderedConcat(AllEntryProblems(entries[..n]), EntryProblems(entries[n]), 4, 4, 4);
    }
  }

  lemma {:induction false} FilesInPlace(atts: seq<Attachment>)
    ensures Ordered(AllAttachmentProblems(atts)) && Between(AllAttachmentProblems(atts), 5, 5 + |atts|)
  {
    if atts != [] {
      var n := |atts| - 1;
      FilesInPlace(atts[..n]);
      OneInPlace(atts[n], n);
      hide AttachmentProblems;
      OrderedConcat(AllAttachmentProblems(atts[..n]), AttachmentProblems(atts[n], n), 5, 5 + n, 5 + n);
    }
  }

  lemma OneInPlace(a: Attachment, i: nat)
    ensures Ordered(AttachmentProblems(a, i)) && Between(AttachmentProblems(a, i), 5 + i, 5 + i)
  {
    hide DecodedByteLength;
  }

  /** Main: problems come in the order of the form, those of files by file. */
  lemma ProblemsInFormOrder(input: Issue)
    ensures Ordered(IssueProblems(input))
  {
    hide TextProblems, LengthProblems, MetadataProblems, FileProblems, Ordered, Between;
    var texts, lengths := TextProblems(input.subject, input.description), LengthProblems(input.context, input.externalReference);
    var metadata, files := MetadataProblems(input.metadata), FileProblems(input.attachments);
    FieldsInPlace(input);
    ListsInPlace(input);
    var last := 5 + |input.attachments|;
    OrderedConcat(texts, lengths, 0, 1, 3);
    OrderedConcat(metadata, files, 4, 5, last);
    SomewhatWider(metadata + files, last);
    OrderedConcat(texts + lengths, metadata + files, 0, 3, last);
  }

  lemma SomewhatWider(ps: seq<Problem>, last: nat)
    requires Between(ps, 4, last)
    ensures Between(ps, 3, last)
  {
  }

  lemma FieldsInPlace(input: Issue)
    ensures var ps := TextProblems(input.subject, input.description); Ordered(ps) && Between(ps, 0, 1)
    ensures var ps := LengthProblems(input.context, input.externalReference); Ordered(ps) && Between(ps, 1, 3)
  {
    hide GoodSubject, GoodDescription, Present, Ordered, Between;
    var s, d := !GoodSubject(input.subject), !GoodDescription(input.description);
    OneOf(s, BadSubject, 0, 1);
    OneOf(d, BadDescription, 1, 1);
    OrderedConcat(Present(s, BadSubject), Present(d, BadDescription), 0, 1, 1);
    var c, r := |Or(input.context)| > CONTEXT_MAX, |Or(input.externalReference)| > EXTERNAL_REFERENCE_MAX;
    OneOf(c, ContextTooLong, 1, 2);
    OneOf(r, ReferenceTooLong, 2, 3);
    OrderedConcat(Present(c, ContextTooLong), Present(r, ReferenceTooLong), 1, 2, 3);
  }

  lemma OneOf(b: bool, p: Problem, low: nat, high: nat)
    requires low <= Place(p) <= high
    ensures Ordered(Present(b, p)) && Between(Present(b, p), low, high)
  {
  }

  lemma ListsInPlace(input: Issue)
    ensures Ordered(MetadataProblems(input.metadata)) && Between(MetadataProblems(input.metadata), 4, 5)
    ensures Ordered(FileProblems(input.attachments)) && Between(FileProblems(input.attachments), 5, 5 + |input.attachments|)
  {
    hide AllEntryProblems, AllAttachmentProblems;
    EntriesInPlace(input.metadata);
    FilesInPlace(input.attachments);
  }
}
