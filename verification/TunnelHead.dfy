/**
 The request head a tunnel stream starts with, rewritten for the base's own UI:
 origin-form request lines only (section 3.2.1 of RFC 9112), one Host, and a
 closed connection unless the request upgrades.
 */
module TunnelHead {
  import opened Common
  import opened Octets

  type Line = seq<Byte>

  const CR: Byte := 13
  const LF: Byte := 10
  const CRLF: seq<Byte> := [CR, LF]
  const SPACE: Byte := 32
  const COLON: Byte := 58
  const SLASH: Byte := 47

  /** The names and fields the rewrite knows. */
  datatype Vocabulary = Vocabulary(
    host: Line, connection: Line, keepAlive: Line, upgrade: Line,
    version: Line, connect: Line, hostField: Line, closeField: Line)

  // ---------------------------------------------------------------------
  // Lines
  // ---------------------------------------------------------------------

  /** Where the first CRLF is. */
  function FindCrlf(s: seq<Byte>): (at: Option<nat>)
    ensures at.Some? ==> at.value + 2 <= |s| && s[at.value] == CR && s[at.value + 1] == LF
    ensures at.Some? ==> forall k :: 0 <= k < at.value ==> !(s[k] == CR && s[k + 1] == LF)
    ensures at.None? ==> forall k :: 0 <= k < |s| - 1 ==> !(s[k] == CR && s[k + 1] == LF)
  {
    if |s| < 2 then None
    else if s[0] == CR && s[1] == LF then Some(0)
    else
      var later := FindCrlf(s[1..]);
      assert forall k :: 1 <= k < |s| ==> s[k] == s[1..][k - 1];
      if later.None? then None else Some(later.value + 1)
  }

  predicate CrlfFree(s: seq<Byte>) {
    FindCrlf(s).None?
  }

  /** The pieces between CRLFs, found left to right. */
  function Split(s: seq<Byte>): (lines: seq<Line>)
    ensures lines != []
    decreases |s|
  {
    var at := FindCrlf(s);
    if at.None? then [s] else [s[..at.value]] + Split(s[at.value + 2..])
  }

  function Join(lines: seq<Line>): seq<Byte>
    requires lines != []
  {
    if |lines| == 1 then lines[0] else lines[0] + CRLF + Join(lines[1..])
  }

  lemma {:induction false} FirstCrlfIsUnique(s: seq<Byte>, n: nat)
    requires n + 2 <= |s| && s[n] == CR && s[n + 1] == LF
    requires forall k :: 0 <= k < n ==> !(s[k] == CR && s[k + 1] == LF)
    ensures FindCrlf(s) == Some(n)
  {
  }

  /** A CRLF after a line without one is the first, even behind a line ending in CR. */
  lemma {:induction false} CrlfAfterLine(line: Line, more: seq<Byte>)
    requires CrlfFree(line)
    ensures FindCrlf(line + CRLF + more) == Some(|line|)
  {
    var s := line + CRLF + more;
    forall k | 0 <= k < |line| ensures !(s[k] == CR && s[k + 1] == LF) {
      if k < |line| - 1 {
        assert s[k] == line[k] && s[k + 1] == line[k + 1];
      } else {
        assert s[k + 1] == CR;
      }
    }
    FirstCrlfIsUnique(s, |line|);
  }

  /** Splitting what was joined gives the lines back. */
  lemma {:induction false} SplitJoin(lines: seq<Line>)
    requires lines != [] && forall k :: 0 <= k < |lines| ==> CrlfFree(lines[k])
    ensures Split(Join(lines)) == lines
    decreases |lines|
  {
    if |lines| > 1 {
      var later := Join(lines[1..]);
      SplitJoin(lines[1..]);
      CrlfAfterLine(lines[0], later);
      var s := lines[0] + CRLF + later;
      assert s[..|lines[0]|] == lines[0] && s[|lines[0]| + 2..] == later;
    }
  }

  /** Joining what was split gives the bytes back, and the lines have no CRLF. */
  lemma {:induction false} JoinSplit(s: seq<Byte>)
    ensures Join(Split(s)) == s
    ensures forall k :: 0 <= k < |Split(s)| ==> CrlfFree(Split(s)[k])
    decreases |s|
  {
    var at := FindCrlf(s);
    if at.Some? {
      var front, back := s[..at.value], s[at.value + 2..];
      JoinSplit(back);
      assert Split(s)[1..] == Split(back);
      assert s == front + CRLF + back;
      assert CrlfFree(front);
    }
  }

  // ---------------------------------------------------------------------
  // Request lines and fields
  // ---------------------------------------------------------------------

  predicate IsUpper(b: Byte) {
    65 <= b <= 90
  }

  /** A line without the line feed that may end it. */
  function Trimmed(line: Line): Line {
    if line != [] && line[|line| - 1] == LF then line[..|line| - 1] else line
  }

  /** `[A-Z]+ /[^ ]* HTTP/1\.[01]`, and the newline the pattern's `$` lets through at the end. */
  predicate IsRequestLine(v: Vocabulary, line: Line) {
    var l := Trimmed(line);
    && |l| >= 9 && l[|l| - 9..|l| - 1] == v.version && (l[|l| - 1] == 48 || l[|l| - 1] == 49)
    && HasOriginForm(l[..|l| - 9])
  }

  predicate HasOriginForm(q: Line) {
    exists i :: 0 <= i < |q| && OriginForm(q, i)
  }

  /** `[A-Z]+ /[^ ]*`, with the space at `i`. */
  predicate OriginForm(q: Line, i: nat) {
    && 1 <= i && i + 1 < |q| && q[i] == SPACE && q[i + 1] == SLASH
    && (forall k :: 0 <= k < i ==> IsUpper(q[k]))
    && (forall k :: i + 2 <= k < |q| ==> q[k] != SPACE)
  }

  predicate IsWhitespace(b: Byte) {
    b == SPACE || 9 <= b <= 13
  }

  function StripLeft(s: seq<Byte>): seq<Byte> {
    if s != [] && IsWhitespace(s[0]) then StripLeft(s[1..]) else s
  }

  function StripRight(s: seq<Byte>): seq<Byte> {
    if s != [] && IsWhitespace(s[|s| - 1]) then StripRight(s[..|s| - 1]) else s
  }

  function Lower(s: seq<Byte>): seq<Byte> {
    seq(|s|, i requires 0 <= i < |s| => LowerByte(s[i]))
  }

  function LowerByte(b: Byte): Byte {
    if IsUpper(b) then b + 32 else b
  }

  function BeforeColon(f: Line): Line {
    if f == [] || f[0] == COLON then [] else [f[0]] + BeforeColon(f[1..])
  }

  /** A field's name: what stands before the first colon, stripped and in lower case. */
  function FieldName(f: Line): Line {
    Lower(StripRight(StripLeft(BeforeColon(f))))
  }

  function NonEmpty(lines: seq<Line>): seq<Line> {
    if lines == [] then []
    else FirstNonEmpty(lines[0]) + NonEmpty(lines[1..])
  }

  function FieldsOf(head: seq<Byte>): seq<Line> {
    NonEmpty(Split(head)[1..])
  }

  predicate HopByHop(v: Vocabulary, name: Line) {
    name == v.host || name == v.connection || name == v.keepAlive
  }

  /** Whether the rewrite passes a field on. */
  predicate Keeps(v: Vocabulary, upgrade: bool, f: Line) {
    FieldName(f) != v.host && (upgrade || !HopByHop(v, FieldName(f)))
  }

  function Kept(v: Vocabulary, upgrade: bool, fields: seq<Line>): seq<Line> {
    if fields == [] then []
    else (if Keeps(v, upgrade, fields[0]) then [fields[0]] else []) + Kept(v, upgrade, fields[1..])
  }

  predicate Upgrades(v: Vocabulary, fields: seq<Line>) {
    exists i :: 0 <= i < |fields| && FieldName(fields[i]) == v.upgrade
  }

  /** The fields put out: the Host, what is kept, and a closed connection unless the request upgrades. */
  function OutFields(v: Vocabulary, fields: seq<Line>): seq<Line> {
    [v.hostField] + Kept(v, Upgrades(v, fields), fields) + Close(v, Upgrades(v, fields))
  }

  function Close(v: Vocabulary, upgrade: bool): seq<Line> {
    if upgrade then [] else [v.closeField]
  }

  /** The head the base's UI gets, or None if it isn't an origin-form HTTP/1.x request. */
  function RewriteWith(v: Vocabulary, head: seq<Byte>): Option<seq<Byte>> {
    var requestLine, fields := Split(head)[0], FieldsOf(head);
    if !IsRequestLine(v, requestLine) || v.connect <= requestLine then None
    else if exists i :: 0 <= i < |fields| && COLON !in fields[i] then None
    else Some(Join([requestLine] + OutFields(v, fields)) + CRLF + CRLF)
  }

  /** How many fields have a name. */
  function Named(fields: seq<Line>, name: Line): nat {
    if fields == [] then 0 else NamedOne(fields[0], name) + Named(fields[1..], name)
  }

  // ---------------------------------------------------------------------
  // What the rewrite does
  // ---------------------------------------------------------------------

  lemma {:induction false} NameBeforeColon(f: Line, n: nat)
    requires n < |f| && f[n] == COLON && forall k :: 0 <= k < n ==> f[k] != COLON
    ensures BeforeColon(f) == f[..n]
  {
    if n > 0 {
      NameBeforeColon(f[1..], n - 1);
      assert f[..n] == [f[0]] + f[1..][..n - 1];
    }
  }

  /** What the rewrite needs of its own names and fields. */
  predicate Coherent(v: Vocabulary) {
    && FieldName(v.hostField) == v.host && FieldName(v.closeField) == v.connection
    && v.host != v.connection && v.host != v.keepAlive && v.connection != v.keepAlive
    && v.upgrade != v.host && v.upgrade != v.connection && v.upgrade != v.keepAlive
    && GoodField(v.hostField) && GoodField(v.closeField)
  }

  predicate GoodField(f: Line) {
    f != [] && COLON in f && CrlfFree(f)
  }

  lemma {:induction false} JoinAppend(lines: seq<Line>)
    requires lines != []
    ensures Join(lines + [[], []]) == Join(lines) + CRLF + CRLF
  {
    if |lines| == 1 {
      assert lines + [[], []] == [lines[0]] + [[], []];
      assert (lines + [[], []])[1..] == [[], []];
      var blank: seq<Line> := [[], []];
      assert blank[1..] == [[]] && Join(blank) == CRLF;
    } else {
      JoinAppend(lines[1..]);
      assert (lines + [[], []])[1..] == lines[1..] + [[], []];
    }
  }

  function FirstNonEmpty(line: Line): seq<Line> {
    if line == [] then [] else [line]
  }

  lemma {:induction false} NonEmptyAppend(a: seq<Line>, b: seq<Line>)
    ensures NonEmpty(a + b) == NonEmpty(a) + NonEmpty(b)
  {
    if a == [] {
      assert a + b == b;
    } else {
      NonEmptyAppend(a[1..], b);
      assert (a + b)[1..] == a[1..] + b && (a + b)[0] == a[0];
      var first, left, right := FirstNonEmpty(a[0]), NonEmpty(a[1..]), NonEmpty(b);
      assert first + (left + right) == (first + left) + right;
    }
  }

  lemma {:induction false} AllNonEmpty(lines: seq<Line>)
    requires [] !in lines
    ensures NonEmpty(lines) == lines
  {
    if lines != [] {
      AllNonEmpty(lines[1..]);
    }
  }

  lemma {:induction false} KeptAppend(v: Vocabulary, upgrade: bool, a: seq<Line>, b: seq<Line>)
    ensures Kept(v, upgrade, a + b) == Kept(v, upgrade, a) + Kept(v, upgrade, b)
  {
    if a == [] {
      assert a + b == b;
    } else {
      KeptAppend(v, upgrade, a[1..], b);
      KeptFirst(v, upgrade, a, b);
    }
  }

  lemma KeptFirst(v: Vocabulary, upgrade: bool, a: seq<Line>, b: seq<Line>)
    requires a != [] && Kept(v, upgrade, a[1..] + b) == Kept(v, upgrade, a[1..]) + Kept(v, upgrade, b)
    ensures Kept(v, upgrade, a + b) == Kept(v, upgrade, a) + Kept(v, upgrade, b)
  {
    var first := if Keeps(v, upgrade, a[0]) then [a[0]] else [];
    assert (a + b)[0] == a[0] && (a + b)[1..] == a[1..] + b;
    assert Kept(v, upgrade, a + b) == first + Kept(v, upgrade, a[1..] + b);
    Regroup(first, Kept(v, upgrade, a[1..]), Kept(v, upgrade, b));
  }

  lemma Regroup<T>(a: seq<T>, b: seq<T>, c: seq<T>)
    ensures a + (b + c) == a + b + c
  {
  }

  lemma {:induction false} KeptTwice(v: Vocabulary, upgrade: bool, fields: seq<Line>)
    ensures Kept(v, upgrade, Kept(v, upgrade, fields)) == Kept(v, upgrade, fields)
  {
    if fields != [] {
      KeptTwice(v, upgrade, fields[1..]);
      KeptAppend(v, upgrade, if Keeps(v, upgrade, fields[0]) then [fields[0]] else [], Kept(v, upgrade, fields[1..]));
    }
  }

  lemma {:induction false} NamedAppend(a: seq<Line>, b: seq<Line>, name: Line)
    ensures Named(a + b, name) == Named(a, name) + Named(b, name)
  {
    if a == [] {
      assert a + b == b;
    } else {
      NamedAppend(a[1..], b, name);
      assert (a + b)[1..] == a[1..] + b;
    }
  }

  lemma {:induction false} NamedNone(fields: seq<Line>, name: Line)
    requires forall f :: f in fields ==> FieldName(f) != name
    ensures Named(fields, name) == 0
  {
    if fields != [] {
      NamedNone(fields[1..], name);
    }
  }

  lemma {:induction false} NonEmptyMembers(lines: seq<Line>)
    ensures forall f :: f in NonEmpty(lines) <==> f in lines && f != []
  {
    if lines != [] {
      NonEmptyMembers(lines[1..]);
    }
  }

  lemma {:induction false} KeptMembers(v: Vocabulary, upgrade: bool, fields: seq<Line>)
    ensures forall f :: f in Kept(v, upgrade, fields) <==> f in fields && Keeps(v, upgrade, f)
  {
    if fields != [] {
      KeptMembers(v, upgrade, fields[1..]);
    }
  }

  predicate Accepted(v: Vocabulary, requestLine: Line, fields: seq<Line>) {
    && IsRequestLine(v, requestLine) && !(v.connect <= requestLine) && GoodFields(fields)
  }

  predicate GoodFields(fields: seq<Line>) {
    forall f :: f in fields ==> GoodField(f)
  }

  /** A head is accepted by its request line and the colons in its fields; its lines have no CRLF. */
  lemma {:induction false} AcceptedHead(v: Vocabulary, head: seq<Byte>)
    ensures RewriteWith(v, head).Some? <==> Accepted(v, Split(head)[0], FieldsOf(head))
    ensures CrlfFree(Split(head)[0])
  {
    JoinSplit(head);
    var lines, fields := Split(head), FieldsOf(head);
    NonEmptyMembers(lines[1..]);
    forall f | f in fields ensures f != [] && CrlfFree(f) {
      assert f in lines[1..];
    }
    assert forall i :: 0 <= i < |fields| ==> fields[i] in fields;
    if forall i :: 0 <= i < |fields| ==> COLON in fields[i] {
      assert GoodFields(fields);
    }
  }

  lemma OutFieldsAreGood(v: Vocabulary, fields: seq<Line>)
    requires Coherent(v) && GoodFields(fields)
    ensures GoodFields(OutFields(v, fields))
  {
    KeptMembers(v, Upgrades(v, fields), fields);
  }

  /** Reading good lines back gives them. */
  lemma {:induction false} ReadsBack(requestLine: Line, fields: seq<Line>)
    requires CrlfFree(requestLine) && GoodFields(fields)
    ensures var head := Join([requestLine] + fields) + CRLF + CRLF;
      Split(head)[0] == requestLine && FieldsOf(head) == fields
  {
    var blank: seq<Line> := [[], []];
    var lines := [requestLine] + fields + blank;
    JoinAppend([requestLine] + fields);
    forall k | 0 <= k < |lines| ensures CrlfFree(lines[k]) {
      assert 1 <= k < 1 + |fields| ==> lines[k] in fields;
    }
    SplitJoin(lines);
    assert lines[1..] == fields + blank;
    NonEmptyAppend(fields, blank);
    assert blank[1..] == [[]] && blank[1..][1..] == [] && NonEmpty(blank) == [];
    AllNonEmpty(fields);
  }

  /** The fields put out upgrade exactly when those taken in do. */
  lemma UpgradesKept(v: Vocabulary, fields: seq<Line>)
    requires Coherent(v)
    ensures Upgrades(v, OutFields(v, fields)) == Upgrades(v, fields)
  {
    var upgrade, out := Upgrades(v, fields), OutFields(v, fields);
    var kept := Kept(v, upgrade, fields);
    KeptMembers(v, upgrade, fields);
    if upgrade {
      var i :| 0 <= i < |fields| && FieldName(fields[i]) == v.upgrade;
      assert fields[i] in kept;
      var j :| 0 <= j < |kept| && kept[j] == fields[i];
      assert out[1 + j] == kept[j];
    } else {
      assert forall f :: f in out ==> f == v.hostField || f == v.closeField || f in fields;
      assert forall j :: 0 <= j < |out| ==> out[j] in out;
    }
  }

  /** What is kept of the fields put out is what was kept of those taken in. */
  lemma {:induction false} KeptIsStable(v: Vocabulary, upgrade: bool, fields: seq<Line>)
    requires Coherent(v)
    ensures Kept(v, upgrade, [v.hostField] + Kept(v, upgrade, fields) + Close(v, upgrade)) == Kept(v, upgrade, fields)
  {
    var kept := Kept(v, upgrade, fields);
    KeptAppend(v, upgrade, [v.hostField] + kept, Close(v, upgrade));
    KeptAppend(v, upgrade, [v.hostField], kept);
    KeptTwice(v, upgrade, fields);
    KeptOne(v, upgrade, v.hostField);
    KeptOne(v, upgrade, v.closeField);
  }

  lemma {:induction false} KeptOne(v: Vocabulary, upgrade: bool, f: Line)
    ensures Kept(v, upgrade, [f]) == if Keeps(v, upgrade, f) then [f] else []
  {
    assert [f][1..] == [];
  }

  /** The fields of a head that the rewrite has no say over, in order. */
  function Untouched(v: Vocabulary, head: seq<Byte>): seq<Line> {
    Kept(v, Upgrades(v, FieldsOf(head)), FieldsOf(head))
  }

  /** What reading a rewritten head gives. */
  lemma {:induction false} RewrittenHead(v: Vocabulary, head: seq<Byte>)
    requires Coherent(v) && RewriteWith(v, head).Some?
    ensures var out, fields := RewriteWith(v, head).value, FieldsOf(head);
      && Split(out)[0] == Split(head)[0] && FieldsOf(out) == OutFields(v, fields)
      && Accepted(v, Split(head)[0], OutFields(v, fields))
  {
    AcceptedHead(v, head);
    OutFieldsAreGood(v, FieldsOf(head));
    ReadsBack(Split(head)[0], OutFields(v, FieldsOf(head)));
  }

  /** The fields put out are put out again as they are. */
  lemma OutTwice(v: Vocabulary, fields: seq<Line>)
    requires Coherent(v)
    ensures OutFields(v, OutFields(v, fields)) == OutFields(v, fields)
  {
    UpgradesKept(v, fields);
    KeptIsStable(v, Upgrades(v, fields), fields);
  }

  /** Rewriting a rewritten head changes nothing, and never refuses it. */
  lemma RewriteTwice(v: Vocabulary, head: seq<Byte>)
    requires Coherent(v) && RewriteWith(v, head).Some?
    ensures RewriteWith(v, RewriteWith(v, head).value) == RewriteWith(v, head)
  {
    RewrittenHead(v, head);
    AcceptedHead(v, RewriteWith(v, head).value);
    OutTwice(v, FieldsOf(head));
  }

  /**
   A rewrite keeps the request line and, in order, every field it doesn't own; puts
   exactly one Host field, its own, in front; and, unless the request upgrades, leaves
   exactly one Connection field, its own, and no Keep-Alive.
   */
  predicate Faithful(v: Vocabulary, head: seq<Byte>, out: seq<Byte>) {
    var upgrade := Upgrades(v, FieldsOf(head));
    && Split(out)[0] == Split(head)[0] && Untouched(v, out) == Untouched(v, head)
    && Upgrades(v, FieldsOf(out)) == upgrade
    && Named(FieldsOf(out), v.host) == 1 && v.hostField in FieldsOf(out)
    && (!upgrade ==>
          && Named(FieldsOf(out), v.connection) == 1 && v.closeField in FieldsOf(out)
          && Named(FieldsOf(out), v.keepAlive) == 0)
  }

  lemma RewriteMeans(v: Vocabulary, head: seq<Byte>)
    requires Coherent(v) && RewriteWith(v, head).Some?
    ensures Faithful(v, head, RewriteWith(v, head).value)
  {
    var fields := FieldsOf(head);
    RewrittenHead(v, head);
    UpgradesKept(v, fields);
    KeptIsStable(v, Upgrades(v, fields), fields);
    OutNames(v, fields);
  }

  lemma OutNames(v: Vocabulary, fields: seq<Line>)
    requires Coherent(v)
    ensures var out := OutFields(v, fields);
      && Named(out, v.host) == 1 && v.hostField in out
      && (!Upgrades(v, fields) ==>
            Named(out, v.connection) == 1 && v.closeField in out && Named(out, v.keepAlive) == 0)
  {
    var upgrade := Upgrades(v, fields);
    KeptMembers(v, upgrade, fields);
    NamedOut(v, upgrade, fields, v.host);
    NamedNone(Kept(v, upgrade, fields), v.host);
    assert OutFields(v, fields)[0] == v.hostField;
    if !upgrade {
      NamedOut(v, upgrade, fields, v.connection);
      NamedOut(v, upgrade, fields, v.keepAlive);
      NamedNone(Kept(v, upgrade, fields), v.connection);
      NamedNone(Kept(v, upgrade, fields), v.keepAlive);
      assert v.closeField in Close(v, upgrade);
    }
  }

  lemma {:induction false} NamedOut(v: Vocabulary, upgrade: bool, fields: seq<Line>, name: Line)
    ensures Named([v.hostField] + Kept(v, upgrade, fields) + Close(v, upgrade), name)
         == NamedOne(v.hostField, name) + Named(Kept(v, upgrade, fields), name)
            + if upgrade then 0 else NamedOne(v.closeField, name)
  {
    NamedAppend([v.hostField] + Kept(v, upgrade, fields), Close(v, upgrade), name);
    NamedAppend([v.hostField], Kept(v, upgrade, fields), name);
    assert [v.hostField][1..] == [] && [v.closeField][1..] == [];
  }

  function NamedOne(f: Line, name: Line): nat {
    if FieldName(f) == name then 1 else 0
  }

  // ---------------------------------------------------------------------
  // The agent's own vocabulary
  // ---------------------------------------------------------------------

  function Host(): Line { [104, 111, 115, 116] }

  function Connection(): Line { [99, 111, 110, 110, 101] + [99, 116, 105, 111, 110] }

  function KeepAlive(): Line { [107, 101, 101, 112, 45, 97, 108, 105, 118, 101] }

  function Upgrade(): Line { [117, 112, 103, 114, 97, 100, 101] }

  /** "Host" */
  function HostAsSent(): Line { [72, 111, 115, 116] }

  /** "Connection" */
  function ConnectionAsSent(): Line { [67, 111, 110, 110, 101] + [99, 116, 105, 111, 110] }

  /** " HTTP/1." */
  function Version(): Line { [32, 72, 84, 84, 80, 47, 49, 46] }

  /** "CONNECT" */
  function ConnectVerb(): Line { [67, 79, 78, 78, 69, 67, 84] }

  /** "Host: localhost:8080" */
  function HostField(): Line {
    HostAsSent() + [COLON] + ([32, 108, 111, 99, 97, 108] + [104, 111, 115, 116] + [58, 56, 48, 56, 48])
  }

  /** "Connection: close" */
  function CloseField(): Line {
    ConnectionAsSent() + [COLON] + [32, 99, 108, 111, 115, 101]
  }

  function Agent(): Vocabulary {
    Vocabulary(Host(), Connection(), KeepAlive(), Upgrade(),
               Version(), ConnectVerb() + [SPACE], HostField(), CloseField())
  }

  function RewriteHead(head: seq<Byte>): Option<seq<Byte>> {
    RewriteWith(Agent(), head)
  }

  lemma {:induction false} NoStrip(s: seq<Byte>)
    requires s != [] && !IsWhitespace(s[0]) && !IsWhitespace(s[|s| - 1])
    ensures StripRight(StripLeft(s)) == s
  {
  }

  predicate Without(s: Line, b: Byte) {
    forall k :: 0 <= k < |s| ==> s[k] != b
  }

  lemma WithoutAppend(s: Line, t: Line, b: Byte)
    requires Without(s, b) && Without(t, b)
    ensures Without(s + t, b)
  {
  }

  lemma LowerAppend(s: Line, t: Line)
    ensures Lower(s + t) == Lower(s) + Lower(t)
  {
  }

  lemma FieldNamed(name: Line, text: Line)
    requires name != [] && !IsWhitespace(name[0]) && !IsWhitespace(name[|name| - 1])
    requires Without(name, COLON) && Without(name, CR) && Without(text, CR)
    ensures FieldName(name + [COLON] + text) == Lower(name) && GoodField(name + [COLON] + text)
  {
    var f := name + [COLON] + text;
    NameBeforeColon(f, |name|);
    assert f[..|name|] == name && f[|name|] == COLON;
    NoStrip(name);
    WithoutAppend(name, [COLON], CR);
    WithoutAppend(name + [COLON], text, CR);
  }

  lemma HostFieldName()
    ensures FieldName(HostField()) == Host() && GoodField(HostField())
  {
    var a: Line, b: Line, c: Line := [32, 108, 111, 99, 97, 108], [104, 111, 115, 116], [58, 56, 48, 56, 48];
    WithoutAppend(a, b, CR);
    WithoutAppend(a + b, c, CR);
    FieldNamed(HostAsSent(), a + b + c);
    assert Lower(HostAsSent()) == Host();
  }

  lemma CloseFieldName()
    ensures FieldName(CloseField()) == Connection() && GoodField(CloseField())
  {
    var a: Line, b: Line := [67, 111, 110, 110, 101], [99, 116, 105, 111, 110];
    WithoutAppend(a, b, CR);
    WithoutAppend(a, b, COLON);
    LowerAppend(a, b);
    assert Lower(a) == [99, 111, 110, 110, 101] && Lower(b) == b;
    FieldNamed(ConnectionAsSent(), [32, 99, 108, 111, 115, 101]);
  }

  lemma AgentIsCoherent()
    ensures Coherent(Agent())
  {
    HostFieldName();
    CloseFieldName();
    NamesDiffer();
  }

  lemma NamesDiffer()
    ensures Host() != Connection() && Host() != KeepAlive() && Connection() != KeepAlive()
    ensures Upgrade() != Host() && Upgrade() != Connection() && Upgrade() != KeepAlive()
  {
    assert |Host()| == 4 && |Connection()| == 10 && |KeepAlive()| == 10 && |Upgrade()| == 7;
    assert Connection()[0] == 99 && KeepAlive()[0] == 107;
  }

  /** Rewriting a rewritten head changes nothing, and never refuses it. */
  lemma RewriteIsIdempotent(head: seq<Byte>)
    requires RewriteHead(head).Some?
    ensures RewriteHead(RewriteHead(head).value) == RewriteHead(head)
  {
    AgentIsCoherent();
    RewriteTwice(Agent(), head);
  }

  /** What the agent's own rewrite keeps and replaces. */
  lemma RewriteIsFaithful(head: seq<Byte>)
    requires RewriteHead(head).Some?
    ensures Faithful(Agent(), head, RewriteHead(head).value)
  {
    AgentIsCoherent();
    RewriteMeans(Agent(), head);
  }

  // ---------------------------------------------------------------------
  // The heads accepted
  // ---------------------------------------------------------------------

  /** A request as written: what its first line spells, and the lines after it. */
  datatype Request = Request(verb: Line, target: Line, digit: Byte, tail: Line, lines: seq<Line>)

  function FirstLine(v: Vocabulary, r: Request): Line {
    r.verb + ([SPACE, SLASH] + r.target + (v.version + [r.digit] + r.tail))
  }

  /**
   An upper-case method that isn't CONNECT, a path without spaces, HTTP/1.0 or 1.1, and
   perhaps a line feed; then lines that are empty or have a colon; and no CRLF in any.
   */
  ghost predicate OriginRequest(v: Vocabulary, r: Request) {
    && r.verb != [] && (forall k :: 0 <= k < |r.verb| ==> 65 <= r.verb[k] <= 90) && r.verb + [SPACE] != v.connect
    && Without(r.target, SPACE)
    && (r.digit == 48 || r.digit == 49) && (r.tail == [] || r.tail == [LF])
    && CrlfFree(FirstLine(v, r))
    && forall l :: l in r.lines ==> CrlfFree(l) && (l == [] || COLON in l)
  }

  /** The version takes 8 bytes, and no method runs on past the word CONNECT. */
  ghost predicate Versed(v: Vocabulary) {
    && |v.version| == 8 && v.connect != [] && v.connect[|v.connect| - 1] == SPACE
    && forall k :: 0 <= k < |v.connect| - 1 ==> IsUpper(v.connect[k])
  }

  /** A head is accepted exactly when it is a request so written. */
  lemma AcceptedExactly(head: seq<Byte>)
    ensures RewriteHead(head).Some? <==>
      exists r: Request :: OriginRequest(Agent(), r) && head == Join([FirstLine(Agent(), r)] + r.lines)
  {
    var v := Agent();
    assert Versed(v);
    if RewriteHead(head).Some? {
      var r := RequestRead(v, head);
    }
    if exists r: Request :: OriginRequest(v, r) && head == Join([FirstLine(v, r)] + r.lines) {
      var r: Request :| OriginRequest(v, r) && head == Join([FirstLine(v, r)] + r.lines);
      RequestAccepted(v, r);
    }
  }

  lemma RequestAccepted(v: Vocabulary, r: Request)
    requires Versed(v) && OriginRequest(v, r)
    ensures RewriteWith(v, Join([FirstLine(v, r)] + r.lines)).Some?
  {
    var lines := [FirstLine(v, r)] + r.lines;
    forall k | 0 <= k < |lines| ensures CrlfFree(lines[k]) {
      assert k > 0 ==> lines[k] in r.lines;
    }
    SplitJoin(lines);
    assert lines[1..] == r.lines;
    NonEmptyMembers(r.lines);
    SpelledIsRequestLine(v, r);
    AcceptedHead(v, Join(lines));
  }

  lemma SpelledIsRequestLine(v: Vocabulary, r: Request)
    requires Versed(v) && OriginRequest(v, r)
    ensures IsRequestLine(v, FirstLine(v, r)) && !(v.connect <= FirstLine(v, r))
  {
    var front := r.verb + ([SPACE, SLASH] + r.target);
    FrontAndEnd(v, front, r.digit, r.tail, FirstLine(v, r));
    FrontIsOriginForm(r.verb, r.target, front);
    NotTheWord(v, r.verb, FirstLine(v, r));
  }

  lemma FrontIsOriginForm(verb: Line, target: Line, front: Line)
    requires verb != [] && (forall k :: 0 <= k < |verb| ==> IsUpper(verb[k])) && Without(target, SPACE)
    requires front == verb + ([SPACE, SLASH] + target)
    ensures OriginForm(front, |verb|)
  {
    assert forall k :: |verb| + 2 <= k < |front| ==> front[k] == target[k - |verb| - 2];
  }

  lemma FrontAndEnd(v: Vocabulary, front: Line, digit: Byte, tail: Line, line: Line)
    requires |v.version| == 8 && (digit == 48 || digit == 49) && (tail == [] || tail == [LF])
    requires line == front + (v.version + [digit] + tail)
    ensures Trimmed(line) == front + (v.version + [digit])
    ensures var l := Trimmed(line); l[..|l| - 9] == front && l[|l| - 9..|l| - 1] == v.version && l[|l| - 1] == digit
  {
    var l := front + (v.version + [digit]);
    assert line == l + tail && l[|l| - 1] == digit;
    assert line[..|l|] == l;
    assert l[..|front|] == front && l[|front|..|front| + 8] == v.version;
  }

  /** A line begins with the word CONNECT and a space only if that is its method. */
  lemma NotTheWord(v: Vocabulary, verb: Line, line: Line)
    requires Versed(v) && verb + [SPACE] <= line && forall k :: 0 <= k < |verb| ==> IsUpper(verb[k])
    ensures v.connect <= line <==> v.connect == verb + [SPACE]
  {
    var n := |v.connect| - 1;
    assert forall k :: 0 <= k <= |verb| ==> line[k] == (verb + [SPACE])[k];
    if v.connect <= line {
      assert forall k :: 0 <= k <= n ==> line[k] == v.connect[k];
      assert line[n] == SPACE && line[|verb|] == SPACE;
      assert n == |verb|;
      assert v.connect == line[..n + 1];
    }
  }

  lemma RequestRead(v: Vocabulary, head: seq<Byte>) returns (r: Request)
    requires Versed(v) && RewriteWith(v, head).Some?
    ensures OriginRequest(v, r) && head == Join([FirstLine(v, r)] + r.lines)
  {
    AcceptedHead(v, head);
    JoinSplit(head);
    var lines := Split(head);
    r := LineRead(v, lines[0], lines[1..]);
    assert [lines[0]] + lines[1..] == lines;
    NonEmptyMembers(r.lines);
    forall l | l in r.lines ensures CrlfFree(l) && (l == [] || COLON in l) {
      assert l != [] ==> l in FieldsOf(head);
    }
  }

  /** What a request line spells. */
  lemma LineRead(v: Vocabulary, line: Line, lines: seq<Line>) returns (r: Request)
    requires Versed(v) && IsRequestLine(v, line) && !(v.connect <= line)
    ensures FirstLine(v, r) == line && r.lines == lines
    ensures r.verb != [] && (forall k :: 0 <= k < |r.verb| ==> 65 <= r.verb[k] <= 90) && r.verb + [SPACE] != v.connect
    ensures Without(r.target, SPACE) && (r.digit == 48 || r.digit == 49) && (r.tail == [] || r.tail == [LF])
  {
    var l := Trimmed(line);
    var q := l[..|l| - 9];
    var i :| 0 <= i < |q| && OriginForm(q, i);
    r := Request(q[..i], q[i + 2..], l[|l| - 1], line[|l|..], lines);
    var path, end := [SPACE, SLASH] + r.target, v.version + [r.digit] + r.tail;
    assert q == r.verb + path;
    EndAndFront(v, line, q, r.digit, r.tail);
    Regroup(r.verb, path, end);
    FirstWord(line, r.verb, path + end);
    NotTheWord(v, r.verb, line);
  }

  lemma FirstWord(line: Line, verb: Line, rest: Line)
    requires line == verb + rest && rest != [] && rest[0] == SPACE
    ensures verb + [SPACE] <= line
  {
    assert line[..|verb| + 1] == verb + [SPACE];
  }

  lemma EndAndFront(v: Vocabulary, line: Line, front: Line, digit: Byte, tail: Line)
    requires |v.version| == 8 && |Trimmed(line)| >= 9
    requires var l := Trimmed(line);
      front == l[..|l| - 9] && l[|l| - 9..|l| - 1] == v.version && digit == l[|l| - 1] && tail == line[|l|..]
    ensures line == front + (v.version + [digit] + tail) && (tail == [] || tail == [LF])
  {
    var l := Trimmed(line);
    assert l == front + (v.version + [digit]);
    assert line == l + tail;
  }

  // ---------------------------------------------------------------------
  // The fields kept, by their bytes
  // ---------------------------------------------------------------------

  /** The bytes of a word. */
  function Ascii(word: string): Line {
    seq(|word|, i requires 0 <= i < |word| => word[i] as int % 256)
  }

  /** The names the agent owns or looks for are spelt so. */
  lemma NamesSpelt()
    ensures Host() == Ascii("host") && Upgrade() == Ascii("upgrade")
    ensures Connection() == Ascii("conne") + Ascii("ction") && KeepAlive() == Ascii("keep-alive")
  {
  }

  /** And so are the fields it writes. */
  lemma FieldsSpelt()
    ensures HostField() == Ascii("Host") + Ascii(":") + (Ascii(" local") + Ascii("host") + Ascii(":8080"))
    ensures CloseField() == Ascii("Conne") + Ascii("ction") + Ascii(":") + Ascii(" close")
  {
    HostSpelt();
    CloseSpelt();
  }

  lemma HostSpelt()
    ensures [72, 111, 115, 116] == Ascii("Host") && [COLON] == Ascii(":")
    ensures [32, 108, 111, 99, 97, 108] == Ascii(" local")
    ensures [104, 111, 115, 116] == Ascii("host") && [58, 56, 48, 56, 48] == Ascii(":8080")
  {
  }

  lemma CloseSpelt()
    ensures [67, 111, 110, 110, 101] == Ascii("Conne") && [99, 116, 105, 111, 110] == Ascii("ction")
    ensures [32, 99, 108, 111, 115, 101] == Ascii(" close")
  {
  }

  /** And what a request line is judged by. */
  lemma RequestLineSpelt()
    ensures Version() == Ascii(" HTTP") + Ascii("/1.") && ConnectVerb() == Ascii("CONNECT")
    ensures [SPACE, SLASH] == Ascii(" /") && CRLF == Ascii("\r\n")
  {
  }

  /** A word is a name but for capitals. */
  predicate Spells(word: Line, name: Line) {
    |word| == |name| && forall k :: 0 <= k < |word| ==>
      word[k] == name[k] || (97 <= name[k] <= 122 && word[k] as int + 32 == name[k])
  }

  predicate Blank(s: Line) {
    forall k :: 0 <= k < |s| ==> s[k] == 32 || 9 <= s[k] <= 13
  }

  /** What stands before a line's first colon, but for blanks around it, is a name. */
  ghost predicate IsNamed(line: Line, name: Line) {
    exists front, word, back, rest :: NamedBy(line, name, front, word, back, rest)
  }

  predicate NamedBy(line: Line, name: Line, front: Line, word: Line, back: Line, rest: Line) {
    line == front + word + back + ([58] + rest) && Blank(front) && Spells(word, name) && Blank(back)
  }

  /** Letters in lower case and dashes. */
  predicate PlainName(name: Line) {
    name != [] && forall k :: 0 <= k < |name| ==> 97 <= name[k] <= 122 || name[k] == 45
  }

  lemma NameMeans(line: Line, name: Line)
    requires PlainName(name) && COLON in line
    ensures FieldName(line) == name <==> IsNamed(line, name)
  {
    if FieldName(line) == name {
      NameRead(line, name);
    }
    if IsNamed(line, name) {
      var front, word, back, rest :| NamedBy(line, name, front, word, back, rest);
      NameWritten(line, name, front, word, back, rest);
    }
  }

  lemma {:induction false} FirstColon(line: Line) returns (n: nat)
    requires COLON in line
    ensures n < |line| && line[n] == COLON && Without(line[..n], COLON) && BeforeColon(line) == line[..n]
  {
    if line[0] == COLON {
      n := 0;
    } else {
      var later := FirstColon(line[1..]);
      n := later + 1;
      NameBeforeColon(line, n);
    }
  }

  lemma {:induction false} Stripped(s: Line) returns (front: Line, back: Line)
    ensures s == front + StripRight(StripLeft(s)) + back && Blank(front) && Blank(back)
  {
    front := LeftBlanks(s);
    back := RightBlanks(StripLeft(s));
  }

  lemma {:induction false} LeftBlanks(s: Line) returns (front: Line)
    ensures s == front + StripLeft(s) && Blank(front)
  {
    if s != [] && IsWhitespace(s[0]) {
      var later := LeftBlanks(s[1..]);
      front := [s[0]] + later;
    } else {
      front := [];
    }
  }

  lemma {:induction false} RightBlanks(s: Line) returns (back: Line)
    ensures s == StripRight(s) + back && Blank(back)
  {
    if s != [] && IsWhitespace(s[|s| - 1]) {
      var before := RightBlanks(s[..|s| - 1]);
      back := before + [s[|s| - 1]];
    } else {
      back := [];
    }
  }

  lemma NameRead(line: Line, name: Line)
    requires PlainName(name) && COLON in line && FieldName(line) == name
    ensures IsNamed(line, name)
  {
    var n := FirstColon(line);
    var front, back := Stripped(line[..n]);
    var word := StripRight(StripLeft(line[..n]));
    LowerSpells(word, name);
    assert line == line[..n] + ([58] + line[n + 1..]);
    assert NamedBy(line, name, front, word, back, line[n + 1..]);
  }

  lemma LowerSpells(word: Line, name: Line)
    requires PlainName(name)
    ensures Lower(word) == name <==> Spells(word, name)
  {
    if Lower(word) == name {
      assert forall k :: 0 <= k < |word| ==> Lower(word)[k] == LowerByte(word[k]);
    }
  }

  lemma NameWritten(line: Line, name: Line, front: Line, word: Line, back: Line, rest: Line)
    requires PlainName(name) && NamedBy(line, name, front, word, back, rest)
    ensures FieldName(line) == name
  {
    var before := front + word + back;
    assert Without(before, COLON) by {
      WithoutAppend(front, word, COLON);
      WithoutAppend(front + word, back, COLON);
    }
    NameBeforeColon(line, |before|);
    assert line[..|before|] == before;
    StripBlanks(front, word, back);
    LowerSpells(word, name);
  }

  lemma StripBlanks(front: Line, word: Line, back: Line)
    requires Blank(front) && Blank(back)
    requires word != [] && !IsWhitespace(word[0]) && !IsWhitespace(word[|word| - 1])
    ensures StripRight(StripLeft(front + word + back)) == word
  {
    StripFront(front, word + back);
    assert front + word + back == front + (word + back);
    StripBack(word, back);
  }

  lemma {:induction false} StripFront(front: Line, s: Line)
    requires Blank(front) && s != [] && !IsWhitespace(s[0])
    ensures StripLeft(front + s) == s
  {
    if front == [] {
      assert front + s == s;
    } else {
      StripFront(front[1..], s);
      assert (front + s)[1..] == front[1..] + s;
    }
  }

  lemma {:induction false} StripBack(s: Line, back: Line)
    requires Blank(back) && s != [] && !IsWhitespace(s[|s| - 1])
    ensures StripRight(s + back) == s
  {
    if back == [] {
      assert s + back == s;
    } else {
      var n := |back| - 1;
      StripBack(s, back[..n]);
      assert (s + back)[..|s| + n] == s + back[..n];
    }
  }

  /** Which of the first n lines the rewrite keeps. */
  function KeptAt(v: Vocabulary, upgrade: bool, lines: seq<Line>, n: nat): (at: seq<nat>)
    requires n <= |lines|
    ensures forall k :: 0 <= k < |at| ==> at[k] < n
  {
    if n == 0 then []
    else
      var before := KeptAt(v, upgrade, lines, n - 1);
      if lines[n - 1] != [] && Keeps(v, upgrade, lines[n - 1]) then before + [n - 1] else before
  }

  function Pick(lines: seq<Line>, at: seq<nat>): seq<Line>
    requires forall k :: 0 <= k < |at| ==> at[k] < |lines|
  {
    seq(|at|, k requires 0 <= k < |at| => lines[at[k]])
  }

  lemma {:induction false} KeptAtExactly(v: Vocabulary, upgrade: bool, lines: seq<Line>, n: nat)
    requires n <= |lines|
    ensures var at := KeptAt(v, upgrade, lines, n);
      && (forall j, k :: 0 <= j < k < |at| ==> at[j] < at[k])
      && (forall i: nat :: i in at <==> i < n && lines[i] != [] && Keeps(v, upgrade, lines[i]))
  {
    if n > 0 {
      KeptAtExactly(v, upgrade, lines, n - 1);
    }
  }

  lemma {:induction false} KeptIsPicked(v: Vocabulary, upgrade: bool, lines: seq<Line>, n: nat)
    requires n <= |lines|
    ensures Kept(v, upgrade, NonEmpty(lines[..n])) == Pick(lines, KeptAt(v, upgrade, lines, n))
  {
    if n > 0 {
      assert lines[..n] == lines[..n - 1] + [lines[n - 1]];
      KeptIsPicked(v, upgrade, lines, n - 1);
      OneMoreKept(v, upgrade, lines[..n - 1], lines[n - 1]);
      PickOneMore(lines, KeptAt(v, upgrade, lines, n - 1), n - 1);
    }
  }

  lemma PickOneMore(lines: seq<Line>, at: seq<nat>, i: nat)
    requires i < |lines| && forall k :: 0 <= k < |at| ==> at[k] < |lines|
    ensures Pick(lines, at + [i]) == Pick(lines, at) + [lines[i]]
    ensures Pick(lines, at) + [] == Pick(lines, at)
  {
  }

  lemma OneMoreKept(v: Vocabulary, upgrade: bool, lines: seq<Line>, line: Line)
    ensures Kept(v, upgrade, NonEmpty(lines + [line])) == Kept(v, upgrade, NonEmpty(lines))
              + if line != [] && Keeps(v, upgrade, line) then [line] else []
  {
    NonEmptyAppend(lines, [line]);
    KeptAppend(v, upgrade, NonEmpty(lines), NonEmpty([line]));
    assert [line][1..] == [] && NonEmpty([line]) == FirstNonEmpty(line);
    if line != [] {
      KeptOne(v, upgrade, line);
    }
  }

  /**
   What the rewrite puts out, by the bytes of what it took in: the request line, its own
   Host field, those lines in order that are not empty and have no name it owns, and, unless
   some line is named Upgrade, its own Connection field. It owns Host, and without an Upgrade
   Connection and Keep-Alive.
   */
  lemma KeepsExactly(head: seq<Byte>) returns (first: Line, lines: seq<Line>, at: seq<nat>, upgrade: bool)
    requires RewriteHead(head).Some?
    ensures head == Join([first] + lines) && CrlfFree(first) && forall i :: 0 <= i < |lines| ==> CrlfFree(lines[i])
    ensures upgrade <==> exists i :: 0 <= i < |lines| && IsNamed(lines[i], Upgrade())
    ensures forall j, k :: 0 <= j < k < |at| ==> at[j] < at[k]
    ensures forall i: nat :: i in at <==>
      && i < |lines| && lines[i] != [] && !IsNamed(lines[i], Host())
      && (upgrade || (!IsNamed(lines[i], Connection()) && !IsNamed(lines[i], KeepAlive())))
    ensures forall k :: 0 <= k < |at| ==> at[k] < |lines|
    ensures RewriteHead(head).value ==
      Join([first] + ([HostField()] + Pick(lines, at) + if upgrade then [] else [CloseField()]) + [[], []])
  {
    var v := Agent();
    AcceptedHead(v, head);
    JoinSplit(head);
    first, lines := Split(head)[0], Split(head)[1..];
    at, upgrade := KeptLines(lines, FieldsOf(head));
    assert [first] + lines == Split(head);
    JoinAppend([first] + OutFields(v, FieldsOf(head)));
  }

  /** The lines an accepted head keeps, and whether it upgrades. */
  lemma KeptLines(lines: seq<Line>, fields: seq<Line>) returns (at: seq<nat>, upgrade: bool)
    requires fields == NonEmpty(lines) && GoodFields(fields)
    ensures upgrade <==> exists i :: 0 <= i < |lines| && IsNamed(lines[i], Upgrade())
    ensures forall j, k :: 0 <= j < k < |at| ==> at[j] < at[k]
    ensures forall i: nat :: i in at <==>
      && i < |lines| && lines[i] != [] && !IsNamed(lines[i], Host())
      && (upgrade || (!IsNamed(lines[i], Connection()) && !IsNamed(lines[i], KeepAlive())))
    ensures forall k :: 0 <= k < |at| ==> at[k] < |lines|
    ensures OutFields(Agent(), fields)
         == [HostField()] + Pick(lines, at) + if upgrade then [] else [CloseField()]
  {
    var v := Agent();
    upgrade := Upgrades(v, fields);
    at := KeptAt(v, upgrade, lines, |lines|);
    NamesOfLines(lines, fields);
    UpgradeNamed(lines, fields);
    KeptAtExactly(v, upgrade, lines, |lines|);
    KeptIsPicked(v, upgrade, lines, |lines|);
    assert lines[..|lines|] == lines;
  }

  /** A line of an accepted head has a name, the bytes before its colon, or is empty. */
  lemma NamesOfLines(lines: seq<Line>, fields: seq<Line>)
    requires fields == NonEmpty(lines) && GoodFields(fields)
    ensures forall i :: 0 <= i < |lines| && lines[i] != [] ==>
      && (FieldName(lines[i]) == Host() <==> IsNamed(lines[i], Host()))
      && (FieldName(lines[i]) == Connection() <==> IsNamed(lines[i], Connection()))
      && (FieldName(lines[i]) == KeepAlive() <==> IsNamed(lines[i], KeepAlive()))
      && (FieldName(lines[i]) == Upgrade() <==> IsNamed(lines[i], Upgrade()))
  {
    NonEmptyMembers(lines);
    NamesArePlain();
    forall i | 0 <= i < |lines| && lines[i] != []
      ensures FieldName(lines[i]) == Host() <==> IsNamed(lines[i], Host())
      ensures FieldName(lines[i]) == Connection() <==> IsNamed(lines[i], Connection())
      ensures FieldName(lines[i]) == KeepAlive() <==> IsNamed(lines[i], KeepAlive())
      ensures FieldName(lines[i]) == Upgrade() <==> IsNamed(lines[i], Upgrade())
    {
      assert lines[i] in fields;
      NameMeans(lines[i], Host());
      NameMeans(lines[i], Connection());
      NameMeans(lines[i], KeepAlive());
      NameMeans(lines[i], Upgrade());
    }
  }

  lemma NamesArePlain()
    ensures PlainName(Host()) && PlainName(Connection()) && PlainName(KeepAlive()) && PlainName(Upgrade())
  {
  }

  lemma UpgradeNamed(lines: seq<Line>, fields: seq<Line>)
    requires fields == NonEmpty(lines)
    requires forall i :: 0 <= i < |lines| && lines[i] != [] ==>
      (FieldName(lines[i]) == Upgrade() <==> IsNamed(lines[i], Upgrade()))
    ensures Upgrades(Agent(), fields) <==> exists i :: 0 <= i < |lines| && IsNamed(lines[i], Upgrade())
  {
    NonEmptyMembers(lines);
    if Upgrades(Agent(), fields) {
      var k :| 0 <= k < |fields| && FieldName(fields[k]) == Upgrade();
      assert fields[k] in lines;
      var i :| 0 <= i < |lines| && lines[i] == fields[k];
      assert IsNamed(lines[i], Upgrade());
    }
    if i :| 0 <= i < |lines| && IsNamed(lines[i], Upgrade()) {
      assert lines[i] != [];
      assert lines[i] in fields;
      var k :| 0 <= k < |fields| && fields[k] == lines[i];
      assert FieldName(fields[k]) == Upgrade();
    }
  }
}
