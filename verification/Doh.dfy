/** DNS messages over HTTPS: the query for a host's A records, and reading them out of a reply. */
module Doh {
  import opened Common
  import opened Octets

  datatype Error = NotAReply | DnsError(code: nat) | Malformed | Truncated | NoARecords

  datatype Parsed<+T> = Ok(value: T) | Bad(error: Error)

  datatype ARecord = ARecord(address: seq<Byte>, ttl: nat)

  const A := 1
  const IN := 1

  // ---------------------------------------------------------------------
  // Names
  // ---------------------------------------------------------------------

  /** Each label with its length byte in front. */
  function Labels(labels: seq<seq<Byte>>): seq<Byte>
    requires forall k :: 0 <= k < |labels| ==> |labels[k]| < 256
  {
    if labels == [] then [] else [|labels[0]|] + labels[0] + Labels(labels[1..])
  }

  /** Past the name at `i`, or None beyond the end of the message. */
  function SkipName(m: seq<Byte>, i: nat): (end: Option<nat>)
    ensures end.Some? ==> i < end.value
    decreases |m| - i
  {
    if i >= |m| then None
    else if m[i] >= 0xC0 then Some(i + 2)
    else if m[i] == 0 then Some(i + 1)
    else SkipName(m, i + 1 + m[i])
  }

  const QUERY_HEADER: seq<Byte> := U16(0) + U16(0x0100) + U16(1) + U16(0) + U16(0) + U16(0)

  /** A length byte can be written in front of every label. */
  predicate Writable(labels: seq<seq<Byte>>) {
    forall k :: 0 <= k < |labels| ==> |labels[k]| < 256
  }

  /**
   A recursive query for a host's A records, with ID 0, of the host's parts between
   dots as the IDNA codec encodes them; None if one is too long for its length byte,
   an error no one handles. The codec gives an empty part no bytes, and one that holds
   other dots it knows may have more than the 63 a label may have.
   */
  function Query(labels: seq<seq<Byte>>): Option<seq<Byte>> {
    if Writable(labels) then Some(QUERY_HEADER + (Labels(labels) + [0]) + (U16(A) + U16(IN))) else None
  }

  // ---------------------------------------------------------------------
  // Parsing a reply
  // ---------------------------------------------------------------------

  /** Past `n` questions from `i`. */
  function Questions(m: seq<Byte>, i: nat, n: nat): Option<nat>
    decreases n
  {
    if n == 0 then Some(i)
    else
      var name := SkipName(m, i);
      if name.None? then None else Questions(m, name.value + 4, n - 1)
  }

  /** One answer at `i`: its A record, if it is one, and where the next begins. */
  function OneAnswer(m: seq<Byte>, i: nat): Parsed<(Option<ARecord>, nat)> {
    var name := SkipName(m, i);
    if name.None? || name.value + 10 > |m| then Bad(Malformed)
    else
      var j := name.value;
      var length := Read16(m, j + 8);
      if j + 10 + length > |m| then Bad(Truncated)
      else
        var wanted := Read16(m, j) == A && Read16(m, j + 2) == IN && length == 4;
        Ok((if wanted then Some(ARecord(m[j + 10..j + 14], Read32(m, j + 4))) else None, j + 10 + length))
  }

  function Listed(record: Option<ARecord>): seq<ARecord> {
    if record.Some? then [record.value] else []
  }

  function Answers(m: seq<Byte>, i: nat, n: nat): Parsed<seq<ARecord>>
    decreases n
  {
    if n == 0 then Ok([])
    else
      var one := OneAnswer(m, i);
      if one.Bad? then Bad(one.error) else Prepend(Listed(one.value.0), Answers(m, one.value.1, n - 1))
  }

  function Prepend(records: seq<ARecord>, later: Parsed<seq<ARecord>>): Parsed<seq<ARecord>> {
    if later.Bad? then later else Ok(records + later.value)
  }

  lemma PrependNothing(later: Parsed<seq<ARecord>>)
    ensures Prepend([], later) == later
  {
    if later.Ok? {
      assert [] + later.value == later.value;
    }
  }

  lemma PrependTwice(a: seq<ARecord>, b: seq<ARecord>, later: Parsed<seq<ARecord>>)
    ensures Prepend(a, Prepend(b, later)) == Prepend(a + b, later)
  {
    if later.Ok? {
      assert a + (b + later.value) == (a + b) + later.value;
    }
  }

  /** The A records of a successful reply; anything else is an error. */
  function ParseReply(m: seq<Byte>): (r: Parsed<seq<ARecord>>)
    ensures r.Ok? ==> r.value != []
  {
    if |m| < 8 then Bad(Malformed)
    else if Read16(m, 0) != 0 || Read16(m, 2) < 0x8000 then Bad(NotAReply)
    else if Read16(m, 2) % 16 != 0 then Bad(DnsError(Read16(m, 2) % 16))
    else
      var answers := Questions(m, 12, Read16(m, 4));
      if answers.None? then Bad(Malformed)
      else
        var records := Answers(m, answers.value, Read16(m, 6));
        if records.Ok? && records.value == [] then Bad(NoARecords) else records
  }

  /** Past the name at `i`, a label at a time. */
  method SkipNameLoop(m: seq<Byte>, start: nat) returns (end: Option<nat>)
    ensures end == SkipName(m, start)
  {
    var i := start;
    while i < |m|
      invariant SkipName(m, start) == SkipName(m, i)
      decreases |m| - i
    {
      if m[i] >= 0xC0 {
        return Some(i + 2);
      }
      if m[i] == 0 {
        return Some(i + 1);
      }
      i := i + 1 + m[i];
    }
    return None;
  }

  /** One pass of the answer loop. */
  method ReadAnswer(m: seq<Byte>, start: nat) returns (one: Parsed<(Option<ARecord>, nat)>)
    ensures one == OneAnswer(m, start)
  {
    var name := SkipNameLoop(m, start);
    if name.None? || name.value + 10 > |m| {
      return Bad(Malformed);
    }
    var i := name.value;
    var rtype, rclass, ttl, length := Read16(m, i), Read16(m, i + 2), Read32(m, i + 4), Read16(m, i + 8);
    i := i + 10;
    if i + length > |m| {
      return Bad(Truncated);
    }
    if rtype == A && rclass == IN && length == 4 {
      return Ok((Some(ARecord(m[i..i + 4], ttl)), i + length));
    }
    return Ok((None, i + length));
  }

  lemma PrependEnd(records: seq<ARecord>, end: Parsed<seq<ARecord>>)
    requires end == Ok([])
    ensures Prepend(records, end) == Ok(records)
  {
    assert records + [] == records;
  }

  method ARecords(m: seq<Byte>) returns (r: Parsed<seq<ARecord>>)
    ensures r == ParseReply(m)
  {
    if |m| < 8 {
      return Bad(Malformed);
    }
    var rid, flags, qdcount, ancount := Read16(m, 0), Read16(m, 2), Read16(m, 4), Read16(m, 6);
    if rid != 0 || flags < 0x8000 {
      return Bad(NotAReply);
    }
    if flags % 16 != 0 {
      return Bad(DnsError(flags % 16));
    }
    var i: nat := 12;
    for q := 0 to qdcount
      invariant Questions(m, 12, qdcount) == Questions(m, i, qdcount - q)
    {
      var name := SkipNameLoop(m, i);
      if name.None? {
        return Bad(Malformed);
      }
      i := name.value + 4;
    }
    var records: seq<ARecord> := [];
    ghost var first: nat := i;
    PrependNothing(Answers(m, i, ancount));
    for a := 0 to ancount
      invariant Answers(m, first, ancount) == Prepend(records, Answers(m, i, ancount - a))
    {
      var one := ReadAnswer(m, i);
      if one.Bad? {
        return Bad(one.error);
      }
      PrependTwice(records, Listed(one.value.0), Answers(m, one.value.1, ancount - a - 1));
      records, i := records + Listed(one.value.0), one.value.1;
    }
    PrependEnd(records, Answers(m, i, 0));
    r := if records == [] then Bad(NoARecords) else Ok(records);
  }

  // ---------------------------------------------------------------------
  // Building a reply (sections 4.1.1 to 4.1.4 of RFC 1035)
  // ---------------------------------------------------------------------

  /** Labels, ended by a zero byte or by a pointer. */
  datatype Name = Name(labels: seq<seq<Byte>>, pointer: Option<seq<Byte>>)

  /** The names the parser can walk: labels of 1 to 191 bytes, the 1 to 63 of RFC 1035 among them. */
  predicate Walkable(n: Name) {
    && (forall k :: 0 <= k < |n.labels| ==> 1 <= |n.labels[k]| < 0xC0)
    && (n.pointer.Some? ==> |n.pointer.value| == 2 && n.pointer.value[0] >= 0xC0)
  }

  function EncodeName(n: Name): seq<Byte>
    requires Walkable(n)
  {
    Labels(n.labels) + if n.pointer.Some? then n.pointer.value else [0]
  }

  datatype Question = Question(name: Name, typeAndClass: seq<Byte>)

  datatype Record = Record(name: Name, rtype: nat, rclass: nat, ttl: nat, data: seq<Byte>)

  datatype Reply = Reply(flags: nat, questions: seq<Question>, records: seq<Record>, counts: seq<Byte>, tail: seq<Byte>)

  predicate GoodRecord(r: Record) {
    Walkable(r.name) && r.rtype < 0x1_0000 && r.rclass < 0x1_0000 && r.ttl < 0x1_0000_0000 && |r.data| < 0x1_0000
  }

  predicate GoodQuestion(q: Question) {
    Walkable(q.name) && |q.typeAndClass| == 4
  }

  predicate GoodQuestions(qs: seq<Question>) {
    forall k :: 0 <= k < |qs| ==> GoodQuestion(qs[k])
  }

  /** A successful reply, ID 0: what follows the answers is its authority and additional sections. */
  predicate GoodReply(r: Reply) {
    && 0x8000 <= r.flags < 0x1_0000 && r.flags % 16 == 0
    && |r.questions| < 0x1_0000 && |r.records| < 0x1_0000 && |r.counts| == 4
    && GoodQuestions(r.questions)
    && GoodRecords(r.records)
  }

  function EncodeQuestion(q: Question): seq<Byte>
    requires GoodQuestion(q)
  {
    EncodeName(q.name) + q.typeAndClass
  }

  function EncodeRecord(r: Record): seq<Byte>
    requires GoodRecord(r)
  {
    EncodeName(r.name) + (U16(r.rtype) + U16(r.rclass) + U32(r.ttl) + U16(|r.data|)) + r.data
  }

  function EncodeQuestions(qs: seq<Question>): seq<Byte>
    requires GoodQuestions(qs)
  {
    if qs == [] then [] else EncodeQuestion(qs[0]) + EncodeQuestions(qs[1..])
  }

  function EncodeRecords(rs: seq<Record>): seq<Byte>
    requires GoodRecords(rs)
  {
    if rs == [] then [] else EncodeRecord(rs[0]) + EncodeRecords(rs[1..])
  }

  function EncodeReply(r: Reply): seq<Byte>
    requires GoodReply(r)
  {
    (U16(0) + U16(r.flags) + U16(|r.questions|) + U16(|r.records|) + r.counts)
    + EncodeQuestions(r.questions) + EncodeRecords(r.records) + r.tail
  }

  /** The IN A records with 4 bytes of data, in order. */
  function Wanted(rs: seq<Record>): seq<ARecord> {
    if rs == [] then [] else WantedOne(rs[0]) + Wanted(rs[1..])
  }

  function WantedOne(r: Record): seq<ARecord> {
    if r.rtype == A && r.rclass == IN && |r.data| == 4 then [ARecord(r.data, r.ttl)] else []
  }

  // ---------------------------------------------------------------------
  // Round trip
  // ---------------------------------------------------------------------

  /** The bytes of `part` stand in `m` at `i`. */
  predicate At(m: seq<Byte>, i: nat, part: seq<Byte>) {
    i + |part| <= |m| && forall k :: 0 <= k < |part| ==> m[i + k] == part[k]
  }

  lemma AtSplits(m: seq<Byte>, i: nat, a: seq<Byte>, b: seq<Byte>)
    ensures At(m, i, a + b) <==> At(m, i, a) && At(m, i + |a|, b)
  {
    if At(m, i, a + b) {
      assert forall k :: 0 <= k < |a| ==> (a + b)[k] == a[k];
      assert forall k :: 0 <= k < |b| ==> (a + b)[|a| + k] == b[k];
    }
  }

  lemma AtSplitsAs(m: seq<Byte>, i: nat, whole: seq<Byte>, a: seq<Byte>, b: seq<Byte>)
    requires whole == a + b
    ensures At(m, i, whole) <==> At(m, i, a) && At(m, i + |a|, b)
    ensures |whole| == |a| + |b|
  {
    AtSplits(m, i, a, b);
  }

  lemma AtSlice(m: seq<Byte>, i: nat, part: seq<Byte>)
    requires i + |part| <= |m|
    ensures At(m, i, part) <==> m[i..i + |part|] == part
  {
    var there := m[i..i + |part|];
    assert forall k :: 0 <= k < |part| ==> there[k] == m[i + k];
  }

  lemma FirstLabelAt(m: seq<Byte>, i: nat, front: seq<Byte>, later: seq<Byte>, all: seq<Byte>)
    requires |front| < 256 && all == [|front|] + front + later && At(m, i, all)
    ensures i < |m| && m[i] == |front| && At(m, i + 1, front) && At(m, i + 1 + |front|, later)
  {
    AtSplitsAs(m, i, all, [|front|] + front, later);
    AtSplits(m, i, [|front|], front);
    assert m[i] == [|front|][0];
  }

  /** A name is skipped exactly. */
  lemma {:induction false} SkipNameExact(m: seq<Byte>, i: nat, n: Name)
    requires Walkable(n) && At(m, i, EncodeName(n))
    ensures SkipName(m, i) == Some(i + |EncodeName(n)|)
    decreases |n.labels|
  {
    if n.labels == [] {
      var end := if n.pointer.Some? then n.pointer.value else [0];
      assert EncodeName(n) == end && m[i] == end[0];
    } else {
      var front, later := n.labels[0], n.(labels := n.labels[1..]);
      FirstLabel(n, front, later);
      FirstLabelAt(m, i, front, EncodeName(later), EncodeName(n));
      SkipNameExact(m, i + 1 + |front|, later);
    }
  }

  lemma FirstLabel(n: Name, front: seq<Byte>, later: Name)
    requires Walkable(n) && n.labels != [] && front == n.labels[0] && later == n.(labels := n.labels[1..])
    ensures Walkable(later) && EncodeName(n) == [|front|] + front + EncodeName(later)
  {
  }

  lemma {:induction false} QuestionsExact(m: seq<Byte>, i: nat, qs: seq<Question>)
    requires GoodQuestions(qs)
    requires At(m, i, EncodeQuestions(qs))
    ensures Questions(m, i, |qs|) == Some(i + |EncodeQuestions(qs)|)
    decreases |qs|
  {
    if qs != [] {
      var first := EncodeQuestion(qs[0]);
      AtSplitsAs(m, i, EncodeQuestions(qs), first, EncodeQuestions(qs[1..]));
      AtSplitsAs(m, i, first, EncodeName(qs[0].name), qs[0].typeAndClass);
      SkipNameExact(m, i, qs[0].name);
      QuestionsExact(m, i + |first|, qs[1..]);
    }
  }

  /** The ten bytes between a record's name and its data say what they were built from. */
  lemma FixedPart(m: seq<Byte>, j: nat, rtype: nat, rclass: nat, ttl: nat, length: nat)
    requires rtype < 0x1_0000 && rclass < 0x1_0000 && ttl < 0x1_0000_0000 && length < 0x1_0000
    requires j + 10 <= |m|
    ensures At(m, j, U16(rtype) + U16(rclass) + U32(ttl) + U16(length)) <==>
      Read16(m, j) == rtype && Read16(m, j + 2) == rclass && Read32(m, j + 4) == ttl && Read16(m, j + 8) == length
  {
    ReadsBack16(m, j, rtype);
    ReadsBack16(m, j + 2, rclass);
    ReadsBack32(m, j + 4, ttl);
    ReadsBack16(m, j + 8, length);
    AtSplits(m, j, U16(rtype), U16(rclass));
    AtSplits(m, j, U16(rtype) + U16(rclass), U32(ttl));
    AtSplits(m, j, U16(rtype) + U16(rclass) + U32(ttl), U16(length));
  }

  lemma AnswerExact(m: seq<Byte>, i: nat, r: Record)
    requires GoodRecord(r) && At(m, i, EncodeRecord(r))
    ensures var one := OneAnswer(m, i);
      one.Ok? && Listed(one.value.0) == WantedOne(r) && one.value.1 == i + |EncodeRecord(r)|
  {
    var name, fixed := EncodeName(r.name), U16(r.rtype) + U16(r.rclass) + U32(r.ttl) + U16(|r.data|);
    AtSplits(m, i, name + fixed, r.data);
    AtSplits(m, i, name, fixed);
    SkipNameExact(m, i, r.name);
    FixedPart(m, i + |name|, r.rtype, r.rclass, r.ttl, |r.data|);
    AtSlice(m, i + |name + fixed|, r.data);
  }

  lemma PrependOk(a: seq<ARecord>, b: seq<ARecord>, later: Parsed<seq<ARecord>>)
    requires later == Ok(b)
    ensures Prepend(a, later) == Ok(a + b)
  {
  }

  /** The first record's answer, then the rest. */
  lemma {:induction false} AnswersCons(m: seq<Byte>, i: nat, rs: seq<Record>, next: nat, later: seq<Record>)
    requires rs != [] && later == rs[1..]
    requires GoodRecord(rs[0]) && At(m, i, EncodeRecord(rs[0])) && next == i + |EncodeRecord(rs[0])|
    requires Answers(m, next, |later|) == Ok(Wanted(later))
    ensures Answers(m, i, |rs|) == Ok(Wanted(rs))
  {
    AnswerExact(m, i, rs[0]);
    AnswersFirst(m, i, |rs|, WantedOne(rs[0]), next, Wanted(later));
    WantedFirst(rs, later);
  }

  lemma AnswersFirst(m: seq<Byte>, i: nat, n: nat, first: seq<ARecord>, next: nat, later: seq<ARecord>)
    requires n > 0 && OneAnswer(m, i).Ok?
    requires Listed(OneAnswer(m, i).value.0) == first && OneAnswer(m, i).value.1 == next
    requires Answers(m, next, n - 1) == Ok(later)
    ensures Answers(m, i, n) == Ok(first + later)
  {
    PrependOk(first, later, Answers(m, next, n - 1));
  }

  lemma WantedFirst(rs: seq<Record>, later: seq<Record>)
    requires rs != [] && later == rs[1..]
    ensures Wanted(rs) == WantedOne(rs[0]) + Wanted(later)
  {
  }

  predicate GoodRecords(rs: seq<Record>) {
    forall k :: 0 <= k < |rs| ==> GoodRecord(rs[k])
  }

  lemma {:induction false} RecordsSplit(m: seq<Byte>, i: nat, rs: seq<Record>)
    requires rs != [] && GoodRecords(rs)
    ensures GoodRecords(rs[1..]) && GoodRecord(rs[0])
    ensures At(m, i, EncodeRecords(rs)) <==>
      At(m, i, EncodeRecord(rs[0])) && At(m, i + |EncodeRecord(rs[0])|, EncodeRecords(rs[1..]))
    ensures |EncodeRecords(rs)| == |EncodeRecord(rs[0])| + |EncodeRecords(rs[1..])|
  {
    AtSplitsAs(m, i, EncodeRecords(rs), EncodeRecord(rs[0]), EncodeRecords(rs[1..]));
  }

  lemma {:induction false} AnswersExact(m: seq<Byte>, i: nat, rs: seq<Record>)
    requires GoodRecords(rs) && At(m, i, EncodeRecords(rs))
    ensures Answers(m, i, |rs|) == Ok(Wanted(rs))
    decreases |rs|
  {
    if rs != [] {
      RecordsSplit(m, i, rs);
      var next, later := i + |EncodeRecord(rs[0])|, rs[1..];
      AnswersExact(m, next, later);
      AnswersCons(m, i, rs, next, later);
    }
  }

  lemma HeaderAt(m: seq<Byte>, flags: nat, qdcount: nat, ancount: nat)
    requires flags < 0x1_0000 && qdcount < 0x1_0000 && ancount < 0x1_0000 && |m| >= 8
    ensures At(m, 0, U16(0) + U16(flags) + U16(qdcount) + U16(ancount)) <==>
      Read16(m, 0) == 0 && Read16(m, 2) == flags && Read16(m, 4) == qdcount && Read16(m, 6) == ancount
  {
    ReadsBack16(m, 0, 0);
    ReadsBack16(m, 2, flags);
    ReadsBack16(m, 4, qdcount);
    ReadsBack16(m, 6, ancount);
    AtSplits(m, 0, U16(0), U16(flags));
    AtSplits(m, 0, U16(0) + U16(flags), U16(qdcount));
    AtSplits(m, 0, U16(0) + U16(flags) + U16(qdcount), U16(ancount));
  }

  function Header(r: Reply): seq<Byte>
    requires GoodReply(r)
  {
    U16(0) + U16(r.flags) + U16(|r.questions|) + U16(|r.records|)
  }

  /** Five parts in a row, each where the one before it ends. */
  lemma FiveParts(m: seq<Byte>, a: seq<Byte>, b: seq<Byte>, c: seq<Byte>, d: seq<Byte>, e: seq<Byte>)
    ensures m == (a + b) + c + d + e <==>
      && At(m, 0, a) && At(m, |a|, b) && At(m, |a| + |b|, c) && At(m, |a| + |b| + |c|, d)
      && At(m, |a| + |b| + |c| + |d|, e) && |m| == |a| + |b| + |c| + |d| + |e|
  {
    var ab, abc, abcd, all := a + b, (a + b) + c, (a + b) + c + d, (a + b) + c + d + e;
    AtSplitsAs(m, 0, ab, a, b);
    AtSplitsAs(m, 0, abc, ab, c);
    AtSplitsAs(m, 0, abcd, abc, d);
    AtSplitsAs(m, 0, all, abcd, e);
    WholeIsAt(m, all);
  }

  lemma WholeIsAt(m: seq<Byte>, all: seq<Byte>)
    ensures m == all <==> At(m, 0, all) && |m| == |all|
  {
  }

  /** The sections of a reply follow one another. */
  predicate LaidOut(m: seq<Byte>, r: Reply)
    requires GoodReply(r)
  {
    var i := 12 + |EncodeQuestions(r.questions)|;
    var j := i + |EncodeRecords(r.records)|;
    && At(m, 0, Header(r)) && At(m, 8, r.counts) && At(m, 12, EncodeQuestions(r.questions))
    && At(m, i, EncodeRecords(r.records)) && At(m, j, r.tail) && |m| == j + |r.tail|
  }

  lemma Layout(m: seq<Byte>, r: Reply)
    requires GoodReply(r)
    ensures m == EncodeReply(r) <==> LaidOut(m, r)
  {
    FiveParts(m, Header(r), r.counts, EncodeQuestions(r.questions), EncodeRecords(r.records), r.tail);
  }

  /** A reply gives back exactly its IN A records, in order, or says that it has none. */
  lemma ReplyRoundTrip(r: Reply)
    requires GoodReply(r)
    ensures ParseReply(EncodeReply(r)) == if Wanted(r.records) == [] then Bad(NoARecords) else Ok(Wanted(r.records))
  {
    Layout(EncodeReply(r), r);
    LaidOutParses(EncodeReply(r), r);
  }

  lemma LaidOutParses(m: seq<Byte>, r: Reply)
    requires GoodReply(r) && LaidOut(m, r)
    ensures ParseReply(m) == if Wanted(r.records) == [] then Bad(NoARecords) else Ok(Wanted(r.records))
  {
    HeaderReads(m, r);
    var answersAt := 12 + |EncodeQuestions(r.questions)|;
    QuestionsExact(m, 12, r.questions);
    AnswersExact(m, answersAt, r.records);
    ParsedAs(m, r.flags, |r.questions|, |r.records|, answersAt, Wanted(r.records));
  }

  lemma HeaderReads(m: seq<Byte>, r: Reply)
    requires GoodReply(r) && |m| >= 8 && At(m, 0, Header(r))
    ensures Read16(m, 0) == 0 && Read16(m, 2) == r.flags
    ensures Read16(m, 4) == |r.questions| && Read16(m, 6) == |r.records|
  {
    HeaderAt(m, r.flags, |r.questions|, |r.records|);
  }

  lemma ParsedAs(m: seq<Byte>, flags: nat, qdcount: nat, ancount: nat, answersAt: nat, records: seq<ARecord>)
    requires |m| >= 8 && Read16(m, 0) == 0 && Read16(m, 2) == flags && flags >= 0x8000 && flags % 16 == 0
    requires Read16(m, 4) == qdcount && Read16(m, 6) == ancount
    requires Questions(m, 12, qdcount) == Some(answersAt) && Answers(m, answersAt, ancount) == Ok(records)
    ensures ParseReply(m) == if records == [] then Bad(NoARecords) else Ok(records)
  {
  }

  // ---------------------------------------------------------------------
  // Only replies parse
  // ---------------------------------------------------------------------

  /** Every name the parser walks past is one. */
  lemma {:induction false} NameThere(m: seq<Byte>, i: nat) returns (n: Name)
    requires SkipName(m, i).Some? && SkipName(m, i).value <= |m|
    ensures Walkable(n) && At(m, i, EncodeName(n)) && SkipName(m, i) == Some(i + |EncodeName(n)|)
    decreases |m| - i
  {
    if m[i] >= 0xC0 {
      n := Name([], Some(m[i..i + 2]));
      assert EncodeName(n) == m[i..i + 2];
      AtSlice(m, i, m[i..i + 2]);
    } else if m[i] == 0 {
      n := Name([], None);
      assert EncodeName(n) == [0] && At(m, i, [0]);
    } else {
      var later := NameThere(m, i + 1 + m[i]);
      var front := m[i + 1..i + 1 + m[i]];
      n := later.(labels := [front] + later.labels);
      LabelInFront(m, i, front, later, n);
    }
  }

  lemma LabelInFront(m: seq<Byte>, i: nat, front: seq<Byte>, later: Name, n: Name)
    requires Walkable(later) && 1 <= |front| < 0xC0 && n == later.(labels := [front] + later.labels)
    requires i + 1 + |front| <= |m| && m[i] == |front| && m[i + 1..i + 1 + |front|] == front
    requires At(m, i + 1 + |front|, EncodeName(later))
    ensures Walkable(n) && At(m, i, EncodeName(n)) && |EncodeName(n)| == 1 + |front| + |EncodeName(later)|
  {
    assert n.labels[1..] == later.labels;
    assert EncodeName(n) == [|front|] + (front + EncodeName(later));
    AtSlice(m, i + 1, front);
    AtSplits(m, i + 1, front, EncodeName(later));
    AtSplits(m, i, [|front|], front + EncodeName(later));
  }

  lemma {:induction false} QuestionsThere(m: seq<Byte>, i: nat, n: nat) returns (qs: seq<Question>)
    requires Questions(m, i, n).Some? && Questions(m, i, n).value <= |m|
    ensures |qs| == n && GoodQuestions(qs)
    ensures At(m, i, EncodeQuestions(qs)) && Questions(m, i, n) == Some(i + |EncodeQuestions(qs)|)
    decreases n
  {
    if n == 0 {
      qs := [];
    } else {
      var j := SkipName(m, i).value;
      QuestionsAdvance(m, j + 4, n - 1);
      var name := NameThere(m, i);
      var q := Question(name, m[j..j + 4]);
      var later := QuestionsThere(m, j + 4, n - 1);
      qs := [q] + later;
      AtSlice(m, j, q.typeAndClass);
      QuestionInFront(m, i, j, q, later, qs);
    }
  }

  lemma QuestionInFront(m: seq<Byte>, i: nat, j: nat, q: Question, later: seq<Question>, qs: seq<Question>)
    requires GoodQuestion(q) && GoodQuestions(later) && qs == [q] + later
    requires At(m, i, EncodeName(q.name)) && j == i + |EncodeName(q.name)|
    requires At(m, j, q.typeAndClass) && At(m, j + 4, EncodeQuestions(later))
    ensures GoodQuestions(qs)
    ensures At(m, i, EncodeQuestions(qs)) && |EncodeQuestions(qs)| == j + 4 - i + |EncodeQuestions(later)|
  {
    assert qs[1..] == later && qs[0] == q;
    AtSplitsAs(m, i, EncodeQuestion(q), EncodeName(q.name), q.typeAndClass);
    AtSplitsAs(m, i, EncodeQuestions(qs), EncodeQuestion(q), EncodeQuestions(later));
  }

  lemma {:induction false} QuestionsAdvance(m: seq<Byte>, i: nat, n: nat)
    ensures Questions(m, i, n).Some? ==> i <= Questions(m, i, n).value
    decreases n
  {
    if n > 0 && SkipName(m, i).Some? {
      QuestionsAdvance(m, SkipName(m, i).value + 4, n - 1);
    }
  }

  lemma AnswerThere(m: seq<Byte>, i: nat) returns (r: Record)
    requires OneAnswer(m, i).Ok?
    ensures GoodRecord(r) && At(m, i, EncodeRecord(r))
    ensures OneAnswer(m, i).value.1 == i + |EncodeRecord(r)| && Listed(OneAnswer(m, i).value.0) == WantedOne(r)
  {
    var name := NameThere(m, i);
    var j := SkipName(m, i).value;
    var length := Read16(m, j + 8);
    r := Record(name, Read16(m, j), Read16(m, j + 2), Read32(m, j + 4), m[j + 10..j + 10 + length]);
    FixedPart(m, j, r.rtype, r.rclass, r.ttl, length);
    var fixed := U16(r.rtype) + U16(r.rclass) + U32(r.ttl) + U16(length);
    AtSplits(m, i, EncodeName(name), fixed);
    AtSplits(m, i, EncodeName(name) + fixed, r.data);
    AnswerExact(m, i, r);
  }

  lemma {:induction false} AnswersThere(m: seq<Byte>, i: nat, n: nat) returns (rs: seq<Record>)
    requires Answers(m, i, n).Ok? && i <= |m|
    ensures |rs| == n && GoodRecords(rs)
    ensures At(m, i, EncodeRecords(rs)) && Answers(m, i, n) == Ok(Wanted(rs))
    decreases n
  {
    if n == 0 {
      rs := [];
    } else {
      var r := AnswerThere(m, i);
      var next := i + |EncodeRecord(r)|;
      var later := AnswersThere(m, next, n - 1);
      rs := [r] + later;
      RecordInFront(m, i, r, next, later, rs);
    }
  }

  lemma RecordInFront(m: seq<Byte>, i: nat, r: Record, next: nat, later: seq<Record>, rs: seq<Record>)
    requires GoodRecord(r) && GoodRecords(later) && rs == [r] + later
    requires At(m, i, EncodeRecord(r)) && next == i + |EncodeRecord(r)| && At(m, next, EncodeRecords(later))
    requires Answers(m, next, |later|) == Ok(Wanted(later))
    ensures GoodRecords(rs) && At(m, i, EncodeRecords(rs)) && Answers(m, i, |rs|) == Ok(Wanted(rs))
  {
    assert rs[1..] == later && rs[0] == r;
    RecordsSplit(m, i, rs);
    AnswersCons(m, i, rs, next, later);
  }

  /**
   The parser accepts exactly the encoded replies that have an A record, and returns
   their A records: on any bytes at all it returns a non-empty list or an error.
   */
  lemma ParsesExactlyReplies(m: seq<Byte>, records: seq<ARecord>)
    ensures ParseReply(m) == Ok(records) <==>
      records != [] && exists r: Reply :: GoodReply(r) && EncodeReply(r) == m && Wanted(r.records) == records
  {
    if ParseReply(m) == Ok(records) {
      var r := ReplyThere(m);
    }
    if records != [] && exists r: Reply :: GoodReply(r) && EncodeReply(r) == m && Wanted(r.records) == records {
      var r: Reply :| GoodReply(r) && EncodeReply(r) == m && Wanted(r.records) == records;
      ReplyRoundTrip(r);
    }
  }

  /** A reply with answers but no A record among them is told apart from anything that isn't a reply. */
  lemma NoneWanted(m: seq<Byte>)
    requires |m| >= 8 && Read16(m, 6) > 0
    ensures ParseReply(m) == Bad(NoARecords) <==>
      exists r: Reply :: GoodReply(r) && EncodeReply(r) == m && Wanted(r.records) == []
  {
    if ParseReply(m) == Bad(NoARecords) {
      NoneParsed(m);
      var r := RecordsThere(m, []);
    }
    if exists r: Reply :: GoodReply(r) && EncodeReply(r) == m && Wanted(r.records) == [] {
      var r: Reply :| GoodReply(r) && EncodeReply(r) == m && Wanted(r.records) == [];
      ReplyRoundTrip(r);
    }
  }

  lemma NoneParsed(m: seq<Byte>)
    requires ParseReply(m) == Bad(NoARecords) && Read16(m, 6) > 0
    ensures |m| >= 8 && Read16(m, 0) == 0 && Read16(m, 2) >= 0x8000 && Read16(m, 2) % 16 == 0
    ensures var questions := Questions(m, 12, Read16(m, 4));
      questions.Some? && Answers(m, questions.value, Read16(m, 6)) == Ok([]) && questions.value <= |m|
  {
    var questions := Questions(m, 12, Read16(m, 4));
    if questions.Some? {
      AnswerErrors(m, questions.value, Read16(m, 6));
    }
  }

  /** Answers fail only by ending too soon. */
  lemma {:induction false} AnswerErrors(m: seq<Byte>, i: nat, n: nat)
    ensures Answers(m, i, n).Bad? ==> Answers(m, i, n).error.Malformed? || Answers(m, i, n).error.Truncated?
    decreases n
  {
    if n > 0 && OneAnswer(m, i).Ok? {
      AnswerErrors(m, OneAnswer(m, i).value.1, n - 1);
    }
  }

  /** A reply's first four bytes alone say that it answers nothing asked, or that the lookup failed. */
  lemma HeaderErrors(m: seq<Byte>)
    ensures ParseReply(m) == Bad(NotAReply) <==> |m| >= 8 && !(m[0] == 0 && m[1] == 0 && m[2] >= 128)
    ensures forall code: nat :: ParseReply(m) == Bad(DnsError(code)) <==>
      |m| >= 8 && m[0] == 0 && m[1] == 0 && m[2] >= 128 && code == m[3] as int % 16 != 0
  {
    if |m| >= 8 {
      var high: int, low: int := m[2], m[3];
      assert Read16(m, 2) == high * 256 + low && Read16(m, 2) % 16 == low % 16;
      var questions := Questions(m, 12, Read16(m, 4));
      if questions.Some? {
        AnswerErrors(m, questions.value, Read16(m, 6));
      }
    }
  }

  lemma ReplyThere(m: seq<Byte>) returns (r: Reply)
    requires ParseReply(m).Ok?
    ensures GoodReply(r) && EncodeReply(r) == m && Ok(Wanted(r.records)) == ParseReply(m)
  {
    ParsedOk(m);
    r := RecordsThere(m, ParseReply(m).value);
  }

  lemma RecordsThere(m: seq<Byte>, records: seq<ARecord>) returns (r: Reply)
    requires |m| >= 8 && Read16(m, 0) == 0 && Read16(m, 2) >= 0x8000 && Read16(m, 2) % 16 == 0
    requires var questions := Questions(m, 12, Read16(m, 4));
      questions.Some? && questions.value <= |m| && Answers(m, questions.value, Read16(m, 6)) == Ok(records)
    ensures GoodReply(r) && EncodeReply(r) == m && Wanted(r.records) == records
  {
    var i := Questions(m, 12, Read16(m, 4)).value;
    QuestionsAdvance(m, 12, Read16(m, 4));
    var qs := QuestionsThere(m, 12, Read16(m, 4));
    var rs := AnswersThere(m, i, Read16(m, 6));
    r := PartsMakeReply(m, qs, rs);
  }

  lemma {:induction false} ParsedOk(m: seq<Byte>)
    requires ParseReply(m).Ok?
    ensures |m| >= 8 && Read16(m, 0) == 0 && Read16(m, 2) >= 0x8000 && Read16(m, 2) % 16 == 0
    ensures var questions := Questions(m, 12, Read16(m, 4));
      questions.Some? && questions.value <= |m| && Answers(m, questions.value, Read16(m, 6)) == ParseReply(m)
  {
  }

  lemma PartsMakeReply(m: seq<Byte>, qs: seq<Question>, rs: seq<Record>) returns (r: Reply)
    requires |m| >= 12 && Read16(m, 0) == 0 && Read16(m, 2) >= 0x8000 && Read16(m, 2) % 16 == 0
    requires Read16(m, 4) == |qs| && Read16(m, 6) == |rs|
    requires GoodQuestions(qs) && GoodRecords(rs)
    requires At(m, 12, EncodeQuestions(qs)) && At(m, 12 + |EncodeQuestions(qs)|, EncodeRecords(rs))
    ensures r.records == rs && GoodReply(r) && EncodeReply(r) == m
  {
    var j := 12 + |EncodeQuestions(qs)| + |EncodeRecords(rs)|;
    r := Reply(Read16(m, 2), qs, rs, m[8..12], m[j..]);
    HeaderAt(m, r.flags, |qs|, |rs|);
    AtSlice(m, 8, r.counts);
    AtSlice(m, j, r.tail);
    Layout(m, r);
  }

  // ---------------------------------------------------------------------
  // The query
  // ---------------------------------------------------------------------

  /**
   A query has ID 0, only the recursion-desired flag, one question and no records; and
   after its name, asks for the IN A records.
   */
  lemma QueryFields(labels: seq<seq<Byte>>)
    requires Query(labels).Some?
    ensures var m, end := Query(labels).value, 13 + |Labels(labels)|;
      && |m| == end + 4 && m[12..end] == Labels(labels) + [0]
      && Read16(m, 0) == 0 && Read16(m, 2) == 0x0100 && Read16(m, 4) == 1
      && Read16(m, 6) == Read16(m, 8) == Read16(m, 10) == 0
      && Read16(m, end) == 1 && Read16(m, end + 2) == 1
  {
    var m, end := Query(labels).value, 13 + |Labels(labels)|;
    assert m[0..2] == U16(0) && m[2..4] == U16(0x0100) && m[4..6] == U16(1);
    assert m[6..8] == m[8..10] == m[10..12] == U16(0);
    assert m[end..end + 2] == U16(1) && m[end + 2..end + 4] == U16(1);
    ReadsBack16(m, 0, 0);
    ReadsBack16(m, 2, 0x0100);
    ReadsBack16(m, 4, 1);
    ReadsBack16(m, 6, 0);
    ReadsBack16(m, 8, 0);
    ReadsBack16(m, 10, 0);
    ReadsBack16(m, end, 1);
    ReadsBack16(m, end + 2, 1);
  }

  /** How many bytes the first k labels take up, each with its length byte. */
  function LengthOf(labels: seq<seq<Byte>>, k: nat): nat
    requires k <= |labels|
  {
    if k == 0 then 0 else 1 + |labels[0]| + LengthOf(labels[1..], k - 1)
  }

  /** Each label stands in the query's name in its turn, its length before it; then comes the zero byte. */
  lemma {:induction false} QueryName(labels: seq<seq<Byte>>, k: nat)
    requires Query(labels).Some? && k <= |labels|
    ensures var m, i := Query(labels).value, 12 + LengthOf(labels, k);
      && i < |m|
      && (k < |labels| ==> m[i] == |labels[k]| && At(m, i + 1, labels[k]))
      && (k == |labels| ==> m[i] == 0 && |m| == i + 5)
  {
    var m := Query(labels).value;
    QueryFields(labels);
    AtSlice(m, 12, Labels(labels) + [0]);
    NameAt(m, 12, labels, k);
  }

  lemma {:induction false} NameAt(m: seq<Byte>, i: nat, labels: seq<seq<Byte>>, k: nat)
    requires Writable(labels) && k <= |labels| && At(m, i, Labels(labels) + [0])
    ensures var j := i + LengthOf(labels, k);
      && j < |m|
      && (k < |labels| ==> m[j] == |labels[k]| && At(m, j + 1, labels[k]))
      && (k == |labels| ==> m[j] == 0 && j == i + |Labels(labels)|)
    decreases |labels|
  {
    if labels == [] {
      assert m[i] == (Labels(labels) + [0])[0];
    } else {
      var front, later := labels[0], labels[1..];
      assert Labels(labels) + [0] == [|front|] + front + (Labels(later) + [0]);
      FirstLabelAt(m, i, front, Labels(later) + [0], Labels(labels) + [0]);
      if k > 0 {
        NameAt(m, i + 1 + |front|, later, k - 1);
      }
    }
  }

  /**
   The parser skips exactly the name a query wrote if and only if every label has 1
   to 191 bytes. An empty one writes its zero byte too early, and the length byte of
   one of 192 bytes or more reads as a pointer.
   */
  lemma QueryNameSkipped(labels: seq<seq<Byte>>)
    requires Query(labels).Some?
    ensures SkipName(Query(labels).value, 12) == Some(12 + |Labels(labels)| + 1) <==> Walkable(Name(labels, None))
  {
    var m := Query(labels).value;
    assert m[12..12 + |Labels(labels)| + 1] == Labels(labels) + [0];
    if Walkable(Name(labels, None)) {
      SkipNameExact(m, 12, Name(labels, None));
    } else {
      BadLabelStops(m, 12, labels);
    }
  }

  lemma {:induction false} BadLabelStops(m: seq<Byte>, i: nat, labels: seq<seq<Byte>>)
    requires Writable(labels) && !Walkable(Name(labels, None)) && At(m, i, Labels(labels) + [0])
    ensures SkipName(m, i).Some? && SkipName(m, i).value < i + |Labels(labels)| + 1
    decreases |labels|
  {
    var front, later := labels[0], labels[1..];
    FirstLabelAt(m, i, front, Labels(later) + [0], Labels(labels) + [0]);
    if 1 <= |front| < 0xC0 {
      BadLabelStops(m, i + 1 + |front|, later);
    }
  }

  /** The query for "a..b" is read as one for "a", 4 bytes short. */
  lemma EmptyLabel()
    ensures var labels: seq<seq<Byte>> := [[97], [], [98]];
      Query(labels).Some? && SkipName(Query(labels).value, 12) == Some(15) && 12 + |Labels(labels)| + 1 == 18
  {
    var labels: seq<seq<Byte>> := [[97], [], [98]];
    assert Labels(labels) == [1, 97, 0, 1, 98] by {
      assert labels[1..] == [[], [98]] && labels[1..][1..] == [[98]] && labels[1..][1..][1..] == [];
    }
    var m := Query(labels).value;
    assert m[12] == 1 && m[14] == 0;
  }

  /**
   A label of 192 to 255 bytes is read as a pointer. The codec writes one of 203 for
   three runs of 60 "a" and one of 20 with an ideographic full stop between them.
   */
  lemma LongLabel(bytes: seq<Byte>)
    requires 0xC0 <= |bytes| < 0x100
    ensures Query([bytes]).Some? && SkipName(Query([bytes]).value, 12) == Some(14)
  {
    assert Query([bytes]).value[12] == |bytes|;
  }
}
