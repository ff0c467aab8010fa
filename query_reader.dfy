/** A reader for the question section, written only to state what the composer
    promises: each name written by `Compose` reads back as itself, in order,
    with QTYPE 255 and class IN. It reads each length byte as a plain label
    length and never as a compression pointer, since the composer never
    compresses. */
module QueryReader {
  import opened Wrappers
  import Utf8
  import JsStrings
  import opened Composer

  datatype Question = Question(labels: seq<seq<byte>>, qtype: nat, qclass: nat)

  datatype Query = Query(
    id: nat, flags: nat, questions: seq<Question>,
    answerCount: nat, authorityCount: nat, additionalCount: nat)

  function Be16(hi: byte, lo: byte): nat {
    hi as int * 256 + lo as int
  }

  /** Length-prefixed labels up to a zero byte; the labels and what follows. */
  function ReadLabels(b: seq<byte>): (r: Option<(seq<seq<byte>>, seq<byte>)>)
    decreases |b|
  {
    if b == [] then None
    else if b[0] == 0 then Some(([], b[1..]))
    else if |b| < 1 + b[0] as int then None
    else
      match ReadLabels(b[1 + b[0] as int..])
      case None => None
      case Some((labels, rest)) => Some(([b[1..1 + b[0] as int]] + labels, rest))
  }

  function ReadQuestion(b: seq<byte>): Option<(Question, seq<byte>)> {
    match ReadLabels(b)
    case None => None
    case Some((labels, rest)) =>
      if |rest| < 4 then None
      else Some((Question(labels, Be16(rest[0], rest[1]), Be16(rest[2], rest[3])), rest[4..]))
  }

  function ReadQuestions(b: seq<byte>, count: nat): Option<(seq<Question>, seq<byte>)>
    decreases count
  {
    if count == 0 then Some(([], b))
    else
      match ReadQuestion(b)
      case None => None
      case Some((q, rest)) =>
        match ReadQuestions(rest, count - 1)
        case None => None
        case Some((qs, rest')) => Some(([q] + qs, rest'))
  }

  /** The header and exactly QDCOUNT questions, with nothing left over. */
  function ReadQuery(b: seq<byte>): Option<Query> {
    if |b| < HEADER_LENGTH then None
    else
      match ReadQuestions(b[HEADER_LENGTH..], Be16(b[4], b[5]))
      case None => None
      case Some((qs, rest)) =>
        if rest != [] then None
        else Some(Query(Be16(b[0], b[1]), Be16(b[2], b[3]), qs,
                        Be16(b[6], b[7]), Be16(b[8], b[9]), Be16(b[10], b[11])))
  }

  function DecodeLabels(labels: seq<seq<byte>>): Option<seq<string>> {
    if labels == [] then Some([])
    else
      match Utf8.Decode(labels[0])
      case None => None
      case Some(s) =>
        match DecodeLabels(labels[1..])
        case None => None
        case Some(ss) => Some([s] + ss)
  }

  /** The dotted name the labels spell. */
  function NameOf(labels: seq<seq<byte>>): Option<string> {
    match DecodeLabels(labels)
    case None => None
    case Some(parts) => if parts == [] then Some("") else Some(JsStrings.Join(parts))
  }

  /** Names read back from a buffer that holds a query. */
  function QueryNames(b: seq<byte>): Option<seq<string>> {
    match ReadQuery(b)
    case None => None
    case Some(q) => NamesOf(q.questions)
  }

  function NamesOf(qs: seq<Question>): Option<seq<string>> {
    if qs == [] then Some([])
    else
      match NameOf(qs[0].labels)
      case None => None
      case Some(n) =>
        match NamesOf(qs[1..])
        case None => None
        case Some(ns) => Some([n] + ns)
  }

  function EncodeParts(parts: seq<string>): (r: seq<seq<byte>>)
    ensures |r| == |parts|
    ensures forall i :: 0 <= i < |parts| ==> r[i] == Utf8.Encode(parts[i])
  {
    if parts == [] then [] else [Utf8.Encode(parts[0])] + EncodeParts(parts[1..])
  }

  /** A part the reader gets back: at least one byte (an empty part would
      read as the end of the name) and at most 255 (the length byte keeps only
      the low eight bits). The composer writes any length unchecked, so this
      admits labels of 64 to 255 bytes, which section 3.1 of RFC 1035 forbids
      and which a reader following section 4.1.4 takes for a pointer once the
      length byte is 0xC0 or more. */
  predicate FitsLabel(part: string) {
    0 < |Utf8.Encode(part)| < 256
  }

  predicate WellFormedName(name: string) {
    forall p | p in JsStrings.Split(name) :: FitsLabel(p)
  }

  function ExpectedQuestions(names: seq<string>): (r: seq<Question>)
    ensures |r| == |names|
  {
    if names == [] then []
    else [Question(EncodeParts(JsStrings.Split(names[0])), QTYPE_ANY, CLASS_IN)]
         + ExpectedQuestions(names[1..])
  }

  lemma {:induction false} ReadLabelsOfParts(parts: seq<string>, rest: seq<byte>)
    requires forall i :: 0 <= i < |parts| ==> FitsLabel(parts[i])
    ensures ReadLabels(LabelsBytes(parts) + [0] + rest) == Some((EncodeParts(parts), rest))
  {
    var b := LabelsBytes(parts) + [0] + rest;
    if parts == [] {
      assert b == [0] + rest;
    } else {
      var e := Utf8.Encode(parts[0]);
      var tail := LabelsBytes(parts[1..]) + [0] + rest;
      assert b == [|e|] + e + tail;
      assert b[0] as int == |e|;
      assert b[1..1 + |e|] == e;
      assert b[1 + |e|..] == tail;
      ReadLabelsOfParts(parts[1..], rest);
    }
  }

  lemma {:induction false} DecodeEncodedParts(parts: seq<string>)
    ensures DecodeLabels(EncodeParts(parts)) == Some(parts)
  {
    if parts != [] {
      var labels := EncodeParts(parts);
      Utf8.DecodeEncode(parts[0]);
      assert labels[0] == Utf8.Encode(parts[0]);
      assert labels[1..] == EncodeParts(parts[1..]);
      DecodeEncodedParts(parts[1..]);
      assert [parts[0]] + parts[1..] == parts;
    }
  }

  lemma ReadQuestionOfName(name: string, rest: seq<byte>)
    requires WellFormedName(name)
    ensures ReadQuestion(QuestionBytes(name) + rest)
         == Some((Question(EncodeParts(JsStrings.Split(name)), QTYPE_ANY, CLASS_IN), rest))
  {
    var parts := JsStrings.Split(name);
    var after := U16(QTYPE_ANY) + U16(CLASS_IN) + rest;
    assert QuestionBytes(name) + rest == LabelsBytes(parts) + [0] + after;
    ReadLabelsOfParts(parts, after);
    assert after[4..] == rest;
  }

  lemma {:induction false} ReadQuestionsOfNames(names: seq<string>, rest: seq<byte>)
    requires forall i :: 0 <= i < |names| ==> WellFormedName(names[i])
    ensures ReadQuestions(QuestionSection(names) + rest, |names|)
         == Some((ExpectedQuestions(names), rest))
  {
    if names != [] {
      var tail := QuestionSection(names[1..]) + rest;
      var q := Question(EncodeParts(JsStrings.Split(names[0])), QTYPE_ANY, CLASS_IN);
      assert QuestionSection(names) + rest == QuestionBytes(names[0]) + tail;
      ReadQuestionOfName(names[0], tail);
      assert ReadQuestion(QuestionSection(names) + rest) == Some((q, tail));
      ReadQuestionsOfNames(names[1..], rest);
      assert ReadQuestions(tail, |names| - 1) == Some((ExpectedQuestions(names[1..]), rest));
      assert ExpectedQuestions(names) == [q] + ExpectedQuestions(names[1..]);
    } else {
      assert QuestionSection(names) + rest == rest;
    }
  }

  lemma QueryHeader(names: seq<string>)
    requires |names| < 256
    ensures |QueryBytes(names)| >= HEADER_LENGTH
    ensures QueryBytes(names)[HEADER_LENGTH..] == QuestionSection(names)
    ensures QueryBytes(names)[..HEADER_LENGTH] == [0, 0, 0, 0, 0, |names|, 0, 0, 0, 0, 0, 0]
  {
    var s := QuestionSection(names);
    assert QueryBytes(names) == HeaderBytes(|names|) + s;
  }

  /** The header fields of any buffer that starts with the header. */
  lemma HeaderFieldsOf(count: nat, rest: seq<byte>)
    requires count < 256
    ensures var b := HeaderBytes(count) + rest;
      && Be16(b[0], b[1]) == 0 && Be16(b[2], b[3]) == 0 && Be16(b[4], b[5]) == count
      && Be16(b[6], b[7]) == 0 && Be16(b[8], b[9]) == 0 && Be16(b[10], b[11]) == 0
  {
    var b := HeaderBytes(count) + rest;
    assert count % 256 == count;
    assert b[0] == 0 && b[2] == 0 && b[4] == 0 && b[6] == 0 && b[8] == 0 && b[10] == 0;
    assert b[1] == 0 && b[3] == 0 && b[5] == count && b[7] == 0 && b[9] == 0 && b[11] == 0;
    Be16HighZero(b[1]);
    Be16HighZero(b[3]);
    Be16HighZero(b[5]);
    Be16HighZero(b[7]);
    Be16HighZero(b[9]);
    Be16HighZero(b[11]);
  }

  lemma Be16HighZero(lo: byte)
    ensures Be16(0, lo) == lo as nat
  {
  }

  lemma QueryHeaderFields(names: seq<string>)
    requires |names| < 256
    ensures |QueryBytes(names)| >= HEADER_LENGTH
    ensures var b := QueryBytes(names);
      && Be16(b[0], b[1]) == 0 && Be16(b[2], b[3]) == 0 && Be16(b[4], b[5]) == |names|
      && Be16(b[6], b[7]) == 0 && Be16(b[8], b[9]) == 0 && Be16(b[10], b[11]) == 0
  {
    HeaderFieldsOf(|names|, QuestionSection(names));
  }

  /** Reading the composed query back gives id 0, flags 0, one question per
      name in the order given, each with QTYPE 255 and class IN, and no
      records. */
  lemma ComposedQueryReadsBack(names: seq<string>)
    requires |names| < 256
    requires forall i :: 0 <= i < |names| ==> WellFormedName(names[i])
    ensures ReadQuery(QueryBytes(names)) == Some(Query(0, 0, ExpectedQuestions(names), 0, 0, 0))
  {
    var b := QueryBytes(names);
    QueryHeader(names);
    QueryHeaderFields(names);
    ReadQuestionsOfNames(names, []);
    assert QuestionSection(names) + [] == b[HEADER_LENGTH..];
    assert ReadQuestions(b[HEADER_LENGTH..], |names|) == Some((ExpectedQuestions(names), []));
  }

  lemma {:induction false} NamesOfExpected(names: seq<string>)
    ensures NamesOf(ExpectedQuestions(names)) == Some(names)
  {
    if names != [] {
      var qs := ExpectedQuestions(names);
      var parts := JsStrings.Split(names[0]);
      DecodeEncodedParts(parts);
      JsStrings.JoinSplit(names[0]);
      assert qs[0].labels == EncodeParts(parts);
      assert NameOf(qs[0].labels) == Some(names[0]);
      assert qs[1..] == ExpectedQuestions(names[1..]);
      NamesOfExpected(names[1..]);
      assert [names[0]] + names[1..] == names;
    }
  }

  /** The round trip on names: every well-formed name list of at most 255
      names is read back from its query unchanged. */
  lemma ComposedNamesRoundTrip(names: seq<string>)
    requires |names| < 256
    requires forall i :: 0 <= i < |names| ==> WellFormedName(names[i])
    ensures QueryNames(QueryBytes(names)) == Some(names)
  {
    ComposedQueryReadsBack(names);
    NamesOfExpected(names);
  }

  /** The composer does not reject a name with an empty part ("a..b", or a
      trailing dot): the part is written as a zero length byte, which a reader
      takes as the end of the name, so the name read back stops before it. */
  lemma {:induction false} EmptyPartEndsName(parts: seq<string>, k: nat, rest: seq<byte>)
    requires k < |parts| && parts[k] == []
    requires forall i :: 0 <= i < k ==> FitsLabel(parts[i])
    ensures ReadLabels(LabelsBytes(parts) + [0] + rest)
         == Some((EncodeParts(parts[..k]), LabelsBytes(parts[k + 1..]) + [0] + rest))
  {
    var b := LabelsBytes(parts) + [0] + rest;
    if k == 0 {
      assert Utf8.Encode(parts[0]) == [];
      assert b == [0] + (LabelsBytes(parts[1..]) + [0] + rest);
    } else {
      var e := Utf8.Encode(parts[0]);
      var tail := LabelsBytes(parts[1..]) + [0] + rest;
      assert b == [|e|] + e + tail;
      assert b[1..1 + |e|] == e;
      assert b[1 + |e|..] == tail;
      EmptyPartEndsName(parts[1..], k - 1, rest);
      assert parts[1..][k..] == parts[k + 1..];
      assert [e] + EncodeParts(parts[1..][..k - 1]) == EncodeParts(parts[..k]);
    }
  }
}
