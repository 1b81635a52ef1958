/** The meaning of relaying: what the next hop reads is what this hop received, with the headers
    that were asked for in front of the message, through any number of hops. */
module Delivery {
  import opened Base
  import opened Netstring
  import opened QmqpMailModel
  import opened MailModel
  import opened HeaderText
  import opened BasicRelayModel
  import Decimal

  /** One run of qrelay over a mail: who connected, and what the handler attempted. */
  datatype Hop = Hop(cred: Option<Cred>, edits: seq<Edit>)

  /** The mail object handed to the handler: parsed, and the message stripped. */
  function Received(ws: char -> bool, payload: string, f: Envelope): Mail {
    NewMail(f.(message := StripLeft(ws, f.message)), payload)
  }

  /** The payload a hop passes on, if it accepts `payload`. */
  function Relay(verify: string -> bool, ws: char -> bool, payload: string, hop: Hop): Option<string> {
    var Parsing(result, f) := ParseEnvelope(verify, payload, EMPTY);
    if result != SUCCESS then None
    else
      var m := ApplyAll(verify, Received(ws, payload, f), hop.edits);
      Some(Wire(Concat(AdditionalHeaders(m.headers, hop.cred)) + m.envelope.message, m.envelope.sender, m.envelope.tail))
  }

  // ------------------------------------------------------------ what a hop adds

  /** The fields a hop puts in front of a message, newest first, `Received` last. */
  function InsertedFields(hs: seq<(string, string)>): seq<string> {
    if hs == [] then [] else InsertedFields(hs[1..]) + [hs[0].0 + ": " + hs[0].1]
  }

  function AddedFields(hop: Hop): seq<string> {
    InsertedFields(FirstFew(ValidInsertions(hop.edits), 16))
    + (if hop.cred.Some? then [ReceivedText(hop.cred.value)] else [])
  }

  lemma {:induction false} JoinLinesAppend(a: seq<string>, b: seq<string>)
    ensures JoinLines(a + b) == JoinLines(a) + JoinLines(b)
  {
    if a == [] {
      assert a + b == b;
    } else {
      assert (a + b)[1..] == a[1..] + b;
      JoinLinesAppend(a[1..], b);
    }
  }

  lemma JoinOneLine(s: string)
    ensures JoinLines([s]) == s + CRLF
  {
    assert JoinLines([s]) == s + CRLF + JoinLines([]);
  }

  lemma {:induction false} LinesAreFields(hs: seq<(string, string)>)
    ensures Concat(LinesNewestFirst(hs)) == JoinLines(InsertedFields(hs))
  {
    if hs != [] {
      LinesAreFields(hs[1..]);
      var text := hs[0].0 + ": " + hs[0].1;
      assert HeaderLine(hs[0].0, hs[0].1) == text + CRLF;
      ConcatSnoc(LinesNewestFirst(hs[1..]), text + CRLF);
      JoinLinesAppend(InsertedFields(hs[1..]), [text]);
      JoinOneLine(text);
    }
  }

  /** The bytes a hop puts in front of the stripped message. */
  lemma AddedBytes(verify: string -> bool, ws: char -> bool, payload: string, f: Envelope, hop: Hop)
    ensures var m := ApplyAll(verify, Received(ws, payload, f), hop.edits);
            && Concat(AdditionalHeaders(m.headers, hop.cred)) == JoinLines(AddedFields(hop))
            && m.envelope == f.(message := StripLeft(ws, f.message), sender := SenderAfter(verify, f.sender, hop.edits))
  {
    EditsAchieve(verify, Received(ws, payload, f), hop.edits);
    var hs := FirstFew(ValidInsertions(hop.edits), 16);
    assert LinesNewestFirst(hs) + [] == LinesNewestFirst(hs);
    HeaderBytes(hs, hop.cred);
  }

  lemma HeaderBytes(hs: seq<(string, string)>, cred: Option<Cred>)
    ensures Concat(AdditionalHeaders(LinesNewestFirst(hs), cred))
         == JoinLines(InsertedFields(hs) + (if cred.Some? then [ReceivedText(cred.value)] else []))
  {
    LinesAreFields(hs);
    if cred.Some? {
      var text := ReceivedText(cred.value);
      ConcatSnoc(LinesNewestFirst(hs), ReceivedLine(cred.value));
      JoinLinesAppend(InsertedFields(hs), [text]);
      JoinOneLine(text);
    } else {
      assert LinesNewestFirst(hs) + [] == LinesNewestFirst(hs);
      assert InsertedFields(hs) + [] == InsertedFields(hs);
    }
  }

  // ------------------------------------------------------------ one hop

  /** What a hop leaves of an envelope. */
  function Relayed(verify: string -> bool, ws: char -> bool, f: Envelope, hop: Hop): Envelope {
    f.(message := JoinLines(AddedFields(hop)) + StripLeft(ws, f.message), sender := SenderAfter(verify, f.sender, hop.edits))
  }

  predicate Fits(f: Envelope) {
    |f.message| <= SIZE_MAX && |f.sender| <= SIZE_MAX
  }

  /** End to end: for every payload the parser accepts and everything a handler may attempt, the
      parser reads from the relayed bytes the added fields and the stripped message, the
      current sender, and the same recipients. */
  lemma {:induction false} RelayMeaning(verify: string -> bool, ws: char -> bool, payload: string, f: Envelope, hop: Hop)
    requires ParseEnvelope(verify, payload, EMPTY) == Parsing(SUCCESS, f)
    requires Fits(Relayed(verify, ws, f, hop))
    ensures Relay(verify, ws, payload, hop).Some?
    ensures ParseEnvelope(verify, Relay(verify, ws, payload, hop).value, EMPTY) == Parsing(SUCCESS, Relayed(verify, ws, f, hop))
  {
    var es := FindWellFormed(verify, payload, f);
    SenderStaysVerified(verify, f.sender, hop.edits);
    AddedBytes(verify, ws, payload, f, hop);
    var g := Relayed(verify, ws, f, hop);
    WireReparses(verify, payload, f, g.message, g.sender);
  }

  /** A payload that is not a mail is not relayed, and only such a payload is not. */
  lemma {:induction false} RelayRefuses(verify: string -> bool, ws: char -> bool, payload: string, hop: Hop)
    ensures Relay(verify, ws, payload, hop).None? <==> !exists es, f :: WellFormed(verify, payload, es, f)
  {
    var Parsing(result, f) := ParseEnvelope(verify, payload, EMPTY);
    if result == SUCCESS {
      var es := FindWellFormed(verify, payload, f);
    } else if es, g :| WellFormed(verify, payload, es, g) {
      WellFormedParses(verify, payload, es, g);
    }
  }

  // ------------------------------------------------------------ many hops

  /** The payload after all `hops`, oldest first. */
  function RelayAll(verify: string -> bool, ws: char -> bool, payload: string, hops: seq<Hop>): Option<string>
    decreases |hops|
  {
    if hops == [] then Some(payload)
    else
      var next := Relay(verify, ws, payload, hops[0]);
      if next.None? then None else RelayAll(verify, ws, next.value, hops[1..])
  }

  /** All fields added on the way, newest first. */
  function AllAddedFields(hops: seq<Hop>): seq<string> {
    if hops == [] then [] else AllAddedFields(hops[1..]) + AddedFields(hops[0])
  }

  function SenderThrough(verify: string -> bool, sender: string, hops: seq<Hop>): string
    decreases |hops|
  {
    if hops == [] then sender else SenderThrough(verify, SenderAfter(verify, sender, hops[0].edits), hops[1..])
  }

  /** Senders assigned by the handlers are strings of the host. */
  predicate SendersFit(hops: seq<Hop>) {
    forall h :: h in hops ==> forall e :: e in h.edits && e.SetSender? ==> |e.address| <= SIZE_MAX
  }

  lemma {:induction false} SenderFits(verify: string -> bool, sender: string, edits: seq<Edit>)
    requires |sender| <= SIZE_MAX && forall e :: e in edits && e.SetSender? ==> |e.address| <= SIZE_MAX
    ensures |SenderAfter(verify, sender, edits)| <= SIZE_MAX
    decreases |edits|
  {
    if edits != [] {
      assert edits[0] in edits;
      SenderFits(verify, if edits[0].SetSender? && verify(edits[0].address) then edits[0].address else sender, edits[1..]);
    }
  }

  lemma {:induction false} PlainFields(hs: seq<(string, string)>)
    requires forall h :: h in hs ==> IsHeaderName(h.0) && IsHeaderValue(h.1)
    ensures forall t :: t in InsertedFields(hs) ==> PlainLine(t) && 33 <= t[0] as int <= 126
  {
    if hs != [] {
      PlainFields(hs[1..]);
      assert hs[0] in hs;
      PlainField(hs[0].0, hs[0].1);
    }
  }

  lemma PlainField(name: string, value: string)
    requires IsHeaderName(name) && IsHeaderValue(value)
    ensures PlainLine(name + ": " + value) && 33 <= (name + ": " + value)[0] as int <= 126
  {
    var text := name + ": " + value;
    assert text[0] == name[0];
    forall i | 0 <= i < |text|
      ensures text[i] != '\r'
    {
      assert IsHeaderNameChar(name[0]);
      if i < |name| {
        assert text[i] == name[i];
      } else if i >= |name| + 2 {
        assert text[i] == value[i - |name| - 2];
      }
    }
  }

  lemma ReceivedIsPlain(cred: Cred)
    ensures PlainLine(ReceivedText(cred)) && ReceivedText(cred)[0] == 'R'
  {
    var a, b := Decimal.ToText(cred.pid), Decimal.ToText(cred.uid);
    assert '\r' !in "Received: from PID=" && '\r' !in a && '\r' !in " UID=" && '\r' !in b && '\r' !in " with QMQP";
  }

  /** Every field a hop adds is one line that neither continues the line before it nor starts
      with whitespace. */
  lemma AddedFieldsArePlain(hop: Hop)
    ensures forall t :: t in AddedFields(hop) ==> PlainLine(t) && 33 <= t[0] as int <= 126
  {
    var hs := FirstFew(ValidInsertions(hop.edits), 16);
    InsertionsAreValid(hop.edits);
    assert forall h :: h in hs ==> h in ValidInsertions(hop.edits);
    PlainFields(hs);
    if hop.cred.Some? {
      ReceivedIsPlain(hop.cred.value);
    }
  }

  /** Whatever a hop adds, the next hop has nothing to strip. */
  lemma {:induction false} RelayedIsStripped(ws: char -> bool, hop: Hop, message: string)
    requires IsWhitespaceSet(ws)
    ensures var m := JoinLines(AddedFields(hop)) + StripLeft(ws, message);
            StripLeft(ws, m) == m
  {
    AddedFieldsArePlain(hop);
    PrefixIsStripped(ws, AddedFields(hop), StripLeft(ws, message));
  }

  lemma PrefixIsStripped(ws: char -> bool, lines: seq<string>, rest: string)
    requires IsWhitespaceSet(ws) && (rest == "" || !ws(rest[0]))
    requires forall t :: t in lines ==> t != "" && 33 <= t[0] as int <= 126
    ensures StripLeft(ws, JoinLines(lines) + rest) == JoinLines(lines) + rest
  {
    StripFixed(ws, JoinLines(lines) + rest);
    if lines != [] {
      assert lines[0] in lines;
      FirstByte(lines, rest);
    } else {
      assert JoinLines(lines) + rest == rest;
    }
  }

  lemma FirstByte(lines: seq<string>, rest: string)
    requires lines != [] && lines[0] != ""
    ensures JoinLines(lines) + rest != "" && (JoinLines(lines) + rest)[0] == lines[0][0]
  {
  }

  /** Multi-hop theorem: after any positive number of hops the message is everything added on
      the way, newest first, in front of the once-stripped original; recipients and tail are
      the original ones, and the sender is the last one assigned. */
  lemma {:induction false} MultiHop(verify: string -> bool, ws: char -> bool, payload: string, f: Envelope, hops: seq<Hop>)
    requires IsWhitespaceSet(ws) && hops != [] && SendersFit(hops)
    requires ParseEnvelope(verify, payload, EMPTY) == Parsing(SUCCESS, f)
    requires |JoinLines(AllAddedFields(hops))| + |StripLeft(ws, f.message)| <= SIZE_MAX
    ensures RelayAll(verify, ws, payload, hops).Some?
    ensures ParseEnvelope(verify, RelayAll(verify, ws, payload, hops).value, EMPTY)
         == Parsing(SUCCESS, f.(message := JoinLines(AllAddedFields(hops)) + StripLeft(ws, f.message),
                         sender := SenderThrough(verify, f.sender, hops)))
    decreases |hops|
  {
    var hop, g := hops[0], Relayed(verify, ws, f, hops[0]);
    assert hop in hops;
    ParsedSenderFits(verify, payload, f);
    SenderFits(verify, f.sender, hop.edits);
    AddedInFront(ws, hops, f.message);
    RelayMeaning(verify, ws, payload, f, hop);
    if |hops| == 1 {
      assert AllAddedFields(hops) == AddedFields(hop);
    } else {
      RelayedIsStripped(ws, hop, f.message);
      assert forall h :: h in hops[1..] ==> h in hops;
      MultiHop(verify, ws, Relay(verify, ws, payload, hop).value, g, hops[1..]);
    }
  }

  lemma AddedInFront(ws: char -> bool, hops: seq<Hop>, message: string)
    requires hops != []
    ensures JoinLines(AllAddedFields(hops)) + StripLeft(ws, message)
         == JoinLines(AllAddedFields(hops[1..])) + (JoinLines(AddedFields(hops[0])) + StripLeft(ws, message))
  {
    var later, first := AllAddedFields(hops[1..]), AddedFields(hops[0]);
    assert AllAddedFields(hops) == later + first;
    JoinInFront(later, first, StripLeft(ws, message));
  }

  lemma JoinInFront(a: seq<string>, b: seq<string>, s: string)
    ensures JoinLines(a + b) + s == JoinLines(a) + (JoinLines(b) + s)
  {
    JoinLinesAppend(a, b);
  }

  lemma ParsedSenderFits(verify: string -> bool, payload: string, f: Envelope)
    requires ParseEnvelope(verify, payload, EMPTY) == Parsing(SUCCESS, f)
    ensures |f.sender| <= SIZE_MAX && |f.message| <= SIZE_MAX
  {
    var es := FindWellFormed(verify, payload, f);
    var items := [f.message, f.sender] + f.recipients;
    assert Encodes(es[0], items[0]) && Encodes(es[1], items[1]);
  }

  /** The `Received` fields of hops that all know their client, newest first. */
  function ReceivedFields(hops: seq<Hop>): seq<string>
    requires forall h :: h in hops ==> h.cred.Some?
  {
    if hops == [] then [] else ReceivedFields(hops[1..]) + [ReceivedText(hops[0].cred.value)]
  }

  /** Without edits, k hops add exactly k `Received` fields and keep the sender. */
  lemma {:induction false} PlainHops(verify: string -> bool, sender: string, hops: seq<Hop>)
    requires forall h :: h in hops ==> h.cred.Some? && h.edits == []
    ensures AllAddedFields(hops) == ReceivedFields(hops) && |ReceivedFields(hops)| == |hops|
    ensures SenderThrough(verify, sender, hops) == sender
    decreases |hops|
  {
    if hops != [] {
      assert hops[0] in hops;
      PlainHops(verify, sender, hops[1..]);
      assert AddedFields(hops[0]) == [ReceivedText(hops[0].cred.value)];
    }
  }

  /** The next hop's server gets the payload out of the client's frame. */
  lemma FrameRoundTrip(request: seq<string>)
    requires |Concat(request)| <= SIZE_MAX
    ensures Next(Concat(Framed(request))) == Found(Concat(request), "")
  {
    FramedIsNetstring(request);
    NextInvertsEncode(Concat(request), "");
    assert Encode(Concat(request)) + "" == Encode(Concat(request));
  }

  // ------------------------------------------------------------ header isolation

  lemma {:induction false} AllAddedFieldsArePlain(hops: seq<Hop>)
    ensures forall t :: t in AllAddedFields(hops) ==> PlainLine(t)
  {
    if hops != [] {
      AllAddedFieldsArePlain(hops[1..]);
      AddedFieldsArePlain(hops[0]);
    }
  }

  /** Header isolation: a reader of the message after any hops finds exactly the added fields,
      newest first, then exactly the fields and the body of the stripped original. */
  lemma {:induction false} HeaderIsolation(ws: char -> bool, hops: seq<Hop>, message: string)
    requires IsWhitespaceSet(ws)
    ensures Read(JoinLines(AllAddedFields(hops)) + StripLeft(ws, message))
         == InFront(AllAddedFields(hops), Read(StripLeft(ws, message)))
  {
    AllAddedFieldsArePlain(hops);
    assert !StartsFolded(StripLeft(ws, message));
    ReadLines(AllAddedFields(hops), StripLeft(ws, message));
  }

  /** The inserted fields carry the (name, value) pairs of the handler's calls, newest first. */
  lemma {:induction false} InsertedPairs(hs: seq<(string, string)>)
    requires forall h :: h in hs ==> IsHeaderName(h.0)
    ensures |InsertedFields(hs)| == |hs|
    ensures forall i :: 0 <= i < |hs| ==> SplitField(InsertedFields(hs)[|hs| - 1 - i]) == (hs[i].0, " " + hs[i].1)
  {
    if hs != [] {
      InsertedPairs(hs[1..]);
      assert hs[0] in hs;
      var name, value := hs[0].0, " " + hs[0].1;
      assert ':' !in name;
      SplitAtName(name, value);
      assert hs[0].0 + ": " + hs[0].1 == name + ":" + value;
    }
  }

  /** The insertions that count: the first sixteen with valid name and value, oldest first. */
  function Insertions(hop: Hop): seq<(string, string)> {
    FirstFew(ValidInsertions(hop.edits), 16)
  }

  /** What a reader finds in front of the `original` fields: the (name, value) pairs, newest first,
      then `Received` with process and user id, if the client is known. */
  ghost predicate ReadsAdded(fields: seq<string>, hop: Hop, original: seq<string>) {
    var pairs, received := Insertions(hop), if hop.cred.Some? then 1 else 0;
    && |fields| == |pairs| + received + |original|
    && (forall i :: 0 <= i < |pairs| ==> SplitField(fields[|pairs| - 1 - i]) == (pairs[i].0, " " + pairs[i].1))
    && (hop.cred.Some? ==>
         SplitField(fields[|pairs|]).0 == "Received" && NamesClient(SplitField(fields[|pairs|]).1, hop.cred.value))
    && fields[|pairs| + received..] == original
  }

  lemma ReceivedSplits(cred: Cred)
    ensures SplitField(ReceivedText(cred)).0 == "Received"
    ensures NamesClient(SplitField(ReceivedText(cred)).1, cred)
  {
    var value := ReceivedSays(cred);
    assert ReceivedLine(cred)[..|ReceivedText(cred)|] == ReceivedText(cred);
    assert ReceivedText(cred) == "Received" + ":" + value;
    SplitAtName("Received", value);
  }

  lemma AddedAreRead(hop: Hop, original: seq<string>)
    ensures ReadsAdded(AddedFields(hop) + original, hop, original)
  {
    var pairs := Insertions(hop);
    InsertionsAreValid(hop.edits);
    assert forall h :: h in pairs ==> h in ValidInsertions(hop.edits);
    InsertedPairs(pairs);
    if hop.cred.Some? {
      ReceivedSplits(hop.cred.value);
    }
  }

  /** The message the next hop gets, as a mail reader sees it: exactly the pairs the handler inserted,
      newest first, then `Received`, then exactly the fields and the body of the stripped
      original. */
  lemma {:induction false} ReaderSees(verify: string -> bool, ws: char -> bool, payload: string, f: Envelope, hop: Hop)
    requires IsWhitespaceSet(ws)
    requires ParseEnvelope(verify, payload, EMPTY) == Parsing(SUCCESS, f)
    requires Fits(Relayed(verify, ws, f, hop))
    ensures Relay(verify, ws, payload, hop).Some?
    ensures var Parsing(result, g) := ParseEnvelope(verify, Relay(verify, ws, payload, hop).value, EMPTY);
            var original := Read(StripLeft(ws, f.message));
            result == SUCCESS && ReadsAdded(Read(g.message).fields, hop, original.fields) && Read(g.message).body == original.body
  {
    RelayMeaning(verify, ws, payload, f, hop);
    assert AllAddedFields([hop]) == AddedFields(hop);
    HeaderIsolation(ws, [hop], f.message);
    AddedAreRead(hop, Read(StripLeft(ws, f.message)).fields);
  }

  // ------------------------------------------------------------ fragments

  /** The write buffers behind the relays have fixed room; whatever the handler attempts and
      however many recipients there are, a QMQP request is at most 23 fragments, 25 with its
      outer frame, and a raw one at most 18. */
  lemma {:induction false} FragmentBound(verify: string -> bool, ws: char -> bool, payload: string, f: Envelope, hop: Hop)
    ensures var m := ApplyAll(verify, Received(ws, payload, f), hop.edits);
            var additional := AdditionalHeaders(m.headers, hop.cred);
            && |RequestFragments(m.envelope, additional)| <= 23
            && |Framed(RequestFragments(m.envelope, additional))| <= 25
            && |additional + [m.envelope.message]| <= 18
  {
    EditsAchieve(verify, Received(ws, payload, f), hop.edits);
    LinesCount(FirstFew(ValidInsertions(hop.edits), 16));
    var m := ApplyAll(verify, Received(ws, payload, f), hop.edits);
    FragmentsAreWire(m.envelope, AdditionalHeaders(m.headers, hop.cred));
  }
}
