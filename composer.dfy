/** The mDNS query composer (lib/dns-sd-composer.js). `Compose` builds the
    query the way the source does, pushing small buffers onto a list and
    concatenating them; the functions below it describe the same bytes as a
    whole so that the layout can be stated and proved (RFC 1035 sections 4.1.1,
    4.1.2 and 3.1). */
module Composer {
  import opened Wrappers
  import Utf8
  import JsStrings

  type byte = Utf8.byte

  /** QTYPE 255, "*" (RFC 1035 section 3.2.3). */
  const QTYPE_ANY: nat := 0xFF
  /** The code of class IN in the class table (RFC 1035 section 3.2.4). */
  const CLASS_IN: nat := 1
  const HEADER_LENGTH: nat := 12

  /** `Buffer.concat(list)`. */
  function Concat(bufs: seq<seq<byte>>): seq<byte> {
    if bufs == [] then [] else bufs[0] + Concat(bufs[1..])
  }

  /** Two bytes, high byte first, as `writeUInt16BE` stores them. */
  function U16(v: nat): seq<byte>
    requires v < 0x1_0000
  {
    [v / 256, v % 256]
  }

  /** The header: id 0, flags 0, the number of names in the low byte of the
      question count (`Buffer.from` keeps the low eight bits), other counts 0. */
  function HeaderBytes(count: nat): seq<byte> {
    [0x00, 0x00, 0x00, 0x00, 0x00, count % 256, 0x00, 0x00, 0x00, 0x00, 0x00, 0x00]
  }

  /** One label: its UTF-8 length (low eight bits) and then its bytes. */
  function LabelBytes(part: string): seq<byte> {
    var b := Utf8.Encode(part);
    [|b| % 256] + b
  }

  function LabelsBytes(parts: seq<string>): seq<byte> {
    if parts == [] then [] else LabelBytes(parts[0]) + LabelsBytes(parts[1..])
  }

  /** A name: the labels of its dot-separated parts and a zero byte. */
  function NameBytes(name: string): seq<byte> {
    LabelsBytes(JsStrings.Split(name)) + [0x00]
  }

  /** A question: the name, QTYPE 255 and class IN. */
  function QuestionBytes(name: string): seq<byte> {
    NameBytes(name) + U16(QTYPE_ANY) + U16(CLASS_IN)
  }

  function QuestionSection(names: seq<string>): seq<byte> {
    if names == [] then [] else QuestionBytes(names[0]) + QuestionSection(names[1..])
  }

  /** The whole query for a list of names. */
  function QueryBytes(names: seq<string>): seq<byte> {
    HeaderBytes(|names|) + QuestionSection(names)
  }

  lemma {:induction false} ConcatAppend(a: seq<seq<byte>>, b: seq<seq<byte>>)
    ensures Concat(a + b) == Concat(a) + Concat(b)
  {
    if a == [] {
      assert a + b == b;
    } else {
      assert (a + b)[1..] == a[1..] + b;
      ConcatAppend(a[1..], b);
    }
  }

  lemma ConcatPush(a: seq<seq<byte>>, x: seq<byte>)
    ensures Concat(a + [x]) == Concat(a) + x
  {
    ConcatAppend(a, [x]);
    assert Concat([x]) == x + Concat([]);
  }

  lemma {:induction false} LabelsAppend(a: seq<string>, b: seq<string>)
    ensures LabelsBytes(a + b) == LabelsBytes(a) + LabelsBytes(b)
  {
    if a == [] {
      assert a + b == b;
    } else {
      assert (a + b)[1..] == a[1..] + b;
      LabelsAppend(a[1..], b);
    }
  }

  lemma {:induction false} SectionAppend(a: seq<string>, b: seq<string>)
    ensures QuestionSection(a + b) == QuestionSection(a) + QuestionSection(b)
  {
    if a == [] {
      assert a + b == b;
    } else {
      assert (a + b)[1..] == a[1..] + b;
      SectionAppend(a[1..], b);
    }
  }

  /** The sizes the layout promises: one length byte plus the UTF-8 bytes per
      part, one terminating zero and four bytes of type and class per name. */
  function LabelsLength(parts: seq<string>): nat {
    if parts == [] then 0 else 1 + |Utf8.Encode(parts[0])| + LabelsLength(parts[1..])
  }

  function QuestionLength(name: string): nat {
    LabelsLength(JsStrings.Split(name)) + 1 + 4
  }

  function SectionLength(names: seq<string>): nat {
    if names == [] then 0 else QuestionLength(names[0]) + SectionLength(names[1..])
  }

  lemma {:induction false} LabelsBytesLength(parts: seq<string>)
    ensures |LabelsBytes(parts)| == LabelsLength(parts)
  {
    if parts != [] {
      LabelsBytesLength(parts[1..]);
    }
  }

  lemma QuestionBytesShape(name: string)
    ensures |QuestionBytes(name)| == QuestionLength(name)
    ensures QuestionBytes(name)[QuestionLength(name) - 5..] == [0x00, 0x00, 0xFF, 0x00, 0x01]
  {
    LabelsBytesLength(JsStrings.Split(name));
  }

  lemma {:induction false} SectionBytesLength(names: seq<string>)
    ensures |QuestionSection(names)| == SectionLength(names)
  {
    if names != [] {
      QuestionBytesShape(names[0]);
      SectionBytesLength(names[1..]);
    }
  }

  /** The query is 12 header bytes followed by the questions; its length is
      12 plus the sum of the question lengths. */
  lemma QueryLength(names: seq<string>)
    ensures |QueryBytes(names)| == HEADER_LENGTH + SectionLength(names)
  {
    SectionBytesLength(names);
  }

  /** The i-th question sits right after the questions of the names before it:
      the questions come in the order of the names, and each ends with the
      zero byte, QTYPE 0x00FF and class 0x0001. */
  lemma QuestionAt(names: seq<string>, i: nat)
    requires i < |names|
    ensures var off := HEADER_LENGTH + SectionLength(names[..i]);
      && off + QuestionLength(names[i]) <= |QueryBytes(names)|
      && QueryBytes(names)[off..off + QuestionLength(names[i])] == QuestionBytes(names[i])
      && QueryBytes(names)[off + QuestionLength(names[i]) - 5..off + QuestionLength(names[i])]
         == [0x00, 0x00, 0xFF, 0x00, 0x01]
  {
    var x := HeaderBytes(|names|) + QuestionSection(names[..i]);
    QueryAround(names, i);
    SectionBytesLength(names[..i]);
    QuestionBytesShape(names[i]);
    SliceMiddle(x, QuestionBytes(names[i]), QuestionSection(names[i + 1..]));
  }

  /** The query split around the question of the i-th name. */
  lemma QueryAround(names: seq<string>, i: nat)
    requires i < |names|
    ensures QueryBytes(names)
      == (HeaderBytes(|names|) + QuestionSection(names[..i])) + QuestionBytes(names[i]) + QuestionSection(names[i + 1..])
  {
    var before, q, after := names[..i], names[i], names[i + 1..];
    assert names == before + [q] + after;
    SectionAppend(before + [q], after);
    SectionAppend(before, [q]);
    assert QuestionSection([q]) == QuestionBytes(q) + QuestionSection([]);
  }

  /** The middle part of three, and the last five bytes of it. */
  lemma SliceMiddle(x: seq<byte>, y: seq<byte>, z: seq<byte>)
    requires |y| >= 5
    ensures (x + y + z)[|x|..|x| + |y|] == y
    ensures (x + y + z)[|x| + |y| - 5..|x| + |y|] == y[|y| - 5..]
  {
  }

  /** Pushing a length byte and the bytes of one part adds that part's label. */
  lemma PushLabel(list: seq<seq<byte>>, part: string)
    ensures var b := Utf8.Encode(part);
      Concat(list + [[|b| % 256]] + [b]) == Concat(list) + LabelBytes(part)
  {
    var b := Utf8.Encode(part);
    ConcatPush(list, [|b| % 256]);
    ConcatPush(list + [[|b| % 256]], b);
  }

  lemma LabelsSnoc(parts: seq<string>, j: nat)
    requires j < |parts|
    ensures LabelsBytes(parts[..j + 1]) == LabelsBytes(parts[..j]) + LabelBytes(parts[j])
  {
    assert parts[..j + 1] == parts[..j] + [parts[j]];
    LabelsAppend(parts[..j], [parts[j]]);
    assert LabelsBytes([parts[j]]) == LabelBytes(parts[j]) + LabelsBytes([]);
  }

  /** `buf.writeUInt16BE(value, offset)` on a buffer of its own. */
  method WriteUInt16BE(buf: array<byte>, value: nat, offset: nat)
    requires value < 0x1_0000 && offset + 2 <= buf.Length
    modifies buf
    ensures buf[..] == old(buf[..])[offset := value / 256][offset + 1 := value % 256]
  {
    buf[offset] := value / 256;
    buf[offset + 1] := value % 256;
  }

  /** The inner `forEach` over the dot-separated parts of one name: pushes a
      length byte and the UTF-8 bytes of each part. */
  /** The body of that `forEach`: `Buffer.from(part, 'utf8')`, then its
      length as a one-byte buffer and the part's bytes. */
  method PushPart(qbufList: seq<seq<byte>>, part: string) returns (list: seq<seq<byte>>)
    ensures Concat(list) == Concat(qbufList) + LabelBytes(part)
  {
    var partBuf := Utf8.Encode(part);
    list := qbufList + [[|partBuf| % 256]] + [partBuf];
    PushLabel(qbufList, part);
  }

  method PushLabels(qbufList: seq<seq<byte>>, parts: seq<string>) returns (list: seq<seq<byte>>)
    ensures Concat(list) == Concat(qbufList) + LabelsBytes(parts)
  {
    list := qbufList;
    for j := 0 to |parts|
      invariant Concat(list) == Concat(qbufList) + LabelsBytes(parts[..j])
    {
      list := PushPart(list, parts[j]);
      LabelsSnoc(parts, j);
    }
    assert parts[..|parts|] == parts;
  }

  /** The body of the `forEach` over the names: pushes the buffers of one
      question onto the list. */
  method PushQuestion(qbufList: seq<seq<byte>>, name: string) returns (list: seq<seq<byte>>)
    ensures Concat(list) == Concat(qbufList) + QuestionBytes(name)
  {
    list := PushLabels(qbufList, JsStrings.Split(name));
    ConcatPush(list, [0x00]);
    list := list + [[0x00]];
    assert Concat(list) == Concat(qbufList) + NameBytes(name);

    list := PushU16(list, QTYPE_ANY);
    list := PushU16(list, CLASS_IN);
  }

  /** `Buffer.alloc(2)`, `writeUInt16BE(value, 0)` and a push, as done for
      the type and for the class. */
  method PushU16(qbufList: seq<seq<byte>>, value: nat) returns (list: seq<seq<byte>>)
    requires value < 0x1_0000
    ensures Concat(list) == Concat(qbufList) + U16(value)
  {
    var buf := new byte[2](_ => 0);
    WriteUInt16BE(buf, value, 0);
    var bytes := buf[..];
    assert bytes == U16(value);
    ConcatPush(qbufList, bytes);
    list := qbufList + [bytes];
  }

  /** `compose({name, type})`. The query type the caller passes plays no part:
      every question asks for QTYPE 255. */
  method Compose(names: seq<string>, qtype: Option<string>) returns (buf: seq<byte>)
    ensures buf == QueryBytes(names)
    ensures |buf| >= HEADER_LENGTH
    ensures buf[..HEADER_LENGTH] == [0, 0, 0, 0, 0, |names| % 256, 0, 0, 0, 0, 0, 0]
  {
    var hbuf: seq<byte> := [0x00, 0x00, 0x00, 0x00, 0x00, |names| % 256, 0x00, 0x00, 0x00, 0x00, 0x00, 0x00];
    var qbufList: seq<seq<byte>> := [];
    for i := 0 to |names|
      invariant Concat(qbufList) == QuestionSection(names[..i])
    {
      qbufList := PushQuestion(qbufList, names[i]);
      assert names[..i + 1] == names[..i] + [names[i]];
      SectionAppend(names[..i], [names[i]]);
    }
    assert names[..|names|] == names;
    var qbuf := Concat(qbufList);
    assert Concat([qbuf]) == qbuf;
    buf := Concat([hbuf, qbuf]);
    assert buf == hbuf + qbuf;
  }
}
