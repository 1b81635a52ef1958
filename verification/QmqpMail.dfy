/** src/djb/QmqpMail.cxx: one QMQP submission, i.e. the netstrings of a message, a sender and
    one or more recipients, one after the other. */
module QmqpMailModel {
  import opened Base
  import opened Netstring

  const MAX_RECIPIENTS := 1024

  datatype ParseResult = SUCCESS | MALFORMED | BAD_ADDRESS | TOO_MANY_RECIPIENTS

  /** The fields of a QmqpMail. */
  datatype Envelope = Envelope(message: string, tail: string, sender: string, recipients: seq<string>)

  /** A result, and the fields as they are afterwards. */
  datatype Parsing = Parsing(result: ParseResult, fields: Envelope)

  const EMPTY := Envelope("", "", "", [])

  // ------------------------------------------------------------ the parse, as a recursion

  function ParseEnvelope(verify: string -> bool, payload: string, e: Envelope): Parsing {
    match Next(payload)
    case Nothing => Parsing(MALFORMED, e)
    case Found(message, afterMessage) => ParseSender(verify, afterMessage, e.(message := message))
  }

  function ParseSender(verify: string -> bool, input: string, e: Envelope): Parsing {
    match Next(input)
    case Nothing => Parsing(MALFORMED, e)
    case Found(sender, rest) =>
      if !verify(sender) then Parsing(BAD_ADDRESS, e)
      else ParseRecipients(verify, rest, e.(sender := sender, tail := "," + rest))
  }

  function ParseRecipients(verify: string -> bool, input: string, e: Envelope): Parsing
    decreases |input|
  {
    match Next(input)
    case Nothing => Parsing(MALFORMED, e)
    case Found(value, rest) =>
      if !verify(value) then Parsing(BAD_ADDRESS, e)
      else if |e.recipients| >= MAX_RECIPIENTS then Parsing(TOO_MANY_RECIPIENTS, e)
      else
        var e' := e.(recipients := e.recipients + [value]);
        NextSplits(input, value, rest);
        if rest == "" then Parsing(SUCCESS, e') else ParseRecipients(verify, rest, e')
  }

  // ------------------------------------------------------------ the accepted payloads

  ghost predicate Encodings(es: seq<string>, vs: seq<string>) {
    |es| == |vs| && forall i :: 0 <= i < |es| ==> Encodes(es[i], vs[i])
  }

  predicate AllVerified(verify: string -> bool, vs: seq<string>) {
    forall v :: v in vs ==> verify(v)
  }

  lemma EncodingsTail(es: seq<string>, vs: seq<string>)
    requires Encodings(es, vs) && es != []
    ensures Encodes(es[0], vs[0]) && Encodings(es[1..], vs[1..])
    ensures Concat(es) == es[0] + Concat(es[1..])
  {
  }

  function AddRecipients(e: Envelope, vs: seq<string>): Envelope {
    e.(recipients := e.recipients + vs)
  }

  lemma AddRecipientsTwice(e: Envelope, vs: seq<string>, ws: seq<string>)
    ensures AddRecipients(e, []) == e
    ensures AddRecipients(AddRecipients(e, vs), ws) == AddRecipients(e, vs + ws)
  {
    assert e.recipients + [] == e.recipients;
    assert e.recipients + vs + ws == e.recipients + (vs + ws);
  }

  /** One good recipient. */
  lemma RecipientStep(verify: string -> bool, first: string, value: string, after: string, e: Envelope)
    requires Encodes(first, value) && verify(value) && |e.recipients| < MAX_RECIPIENTS
    ensures ParseRecipients(verify, first + after, e)
         == if after == "" then Parsing(SUCCESS, AddRecipients(e, [value]))
            else ParseRecipients(verify, after, AddRecipients(e, [value]))
  {
    NextFindsEncoding(first, value, after);
  }

  /** Running over well-formed, verified recipients that fit. */
  lemma {:induction false} RecipientsConsume(verify: string -> bool, es: seq<string>, vs: seq<string>, rest: string, e: Envelope)
    requires Encodings(es, vs) && AllVerified(verify, vs)
    requires |e.recipients| + |vs| <= MAX_RECIPIENTS
    requires rest != ""
    ensures ParseRecipients(verify, Concat(es) + rest, e)
         == ParseRecipients(verify, rest, AddRecipients(e, vs))
    decreases |es|
  {
    if es == [] {
      AddRecipientsTwice(e, [], []);
      assert Concat(es) + rest == rest;
    } else {
      EncodingsTail(es, vs);
      var after := Concat(es[1..]) + rest;
      assert Concat(es) + rest == es[0] + after;
      RecipientStep(verify, es[0], vs[0], after, e);
      RecipientsConsume(verify, es[1..], vs[1..], rest, AddRecipients(e, [vs[0]]));
      AddRecipientsTwice(e, [vs[0]], vs[1..]);
      assert [vs[0]] + vs[1..] == vs;
    }
  }

  /** A last recipient ends the run. */
  lemma RecipientsFinish(verify: string -> bool, last: string, value: string, e: Envelope)
    requires Encodes(last, value) && verify(value) && |e.recipients| < MAX_RECIPIENTS
    ensures ParseRecipients(verify, last, e) == Parsing(SUCCESS, AddRecipients(e, [value]))
  {
    NextFindsEncoding(last, value, "");
    assert last + "" == last;
  }

  /** Why a run over recipients stops in front of `rest` when there is room for `room` more. */
  predicate Stuck(verify: string -> bool, rest: string, room: nat) {
    Next(rest).Nothing? || !verify(Next(rest).value) || room == 0
  }

  /** Every input is a list of good recipients, as long as possible, and a remainder: either
      nothing after the last recipient, or something a run cannot get past. */
  lemma {:induction false} SplitRecipients(verify: string -> bool, input: string, room: nat)
    returns (es: seq<string>, vs: seq<string>, rest: string)
    ensures Encodings(es, vs) && AllVerified(verify, vs) && input == Concat(es) + rest
    ensures |vs| <= room
    ensures if rest == "" && vs != [] then true else Stuck(verify, rest, room - |vs|)
    decreases |input|
  {
    es, vs, rest := [], [], input;
    if !Stuck(verify, input, room) {
      var Found(value, after) := Next(input);
      NextSplits(input, value, after);
      var first := input[..|input| - |after|];
      if after == "" {
        ConcatOne(first);
        es, vs, rest := [first], [value], "";
      } else {
        es, vs, rest := SplitRecipients(verify, after, room - 1);
        EncodingsPrepend(first, value, es, vs, rest);
        es, vs := [first] + es, [value] + vs;
      }
    }
  }

  lemma EncodingsPrepend(first: string, value: string, es: seq<string>, vs: seq<string>, rest: string)
    requires Encodes(first, value) && Encodings(es, vs)
    ensures Encodings([first] + es, [value] + vs)
    ensures Concat([first] + es) + rest == first + (Concat(es) + rest)
  {
    assert ([first] + es)[1..] == es;
  }

  // ------------------------------------------------------------ what the result means

  /** `payload` is the accepted encodings `es` of `items`, then `rest`; the first item is the
      message and all others are verified addresses. */
  ghost predicate GoodPrefix(verify: string -> bool, payload: string, es: seq<string>, items: seq<string>, rest: string) {
    && Encodings(es, items)
    && payload == Concat(es) + rest
    && (items != [] ==> AllVerified(verify, items[1..]))
  }

  /** Why reading stops in front of `rest` with result `r`, given whether the items so far make
      a complete mail and whether they are as many as allowed. */
  predicate Stops(r: ParseResult, verify: string -> bool, rest: string, complete: bool, full: bool) {
    match r
    case SUCCESS => complete && rest == ""
    case MALFORMED => (complete ==> rest != "") && Next(rest).Nothing?
    case BAD_ADDRESS => Next(rest).Found? && !verify(Next(rest).value)
    case TOO_MANY_RECIPIENTS => full && Next(rest).Found? && verify(Next(rest).value)
  }

  /** The reason for a result, as a property of the payload: how far it is good, and what the
      first thing wrong with it is. */
  ghost predicate Reason(r: ParseResult, verify: string -> bool, payload: string, es: seq<string>, items: seq<string>, rest: string) {
    && GoodPrefix(verify, payload, es, items, rest)
    && |items| <= 1026
    && Stops(r, verify, rest, |items| >= 3, |items| == 1026)
    && (r == BAD_ADDRESS ==> items != [])
  }

  /** The fields after a run that read `items` encoded as `es`. */
  function Filled(es: seq<string>, items: seq<string>, rest: string): Envelope
    requires 2 <= |items| == |es|
  {
    Envelope(items[0], "," + Concat(es[2..]) + rest, items[1], items[2..])
  }

  lemma RunsPastMessage(verify: string -> bool, e0: string, message: string, e1: string, sender: string, rest: string)
    requires Encodes(e0, message) && Encodes(e1, sender)
    ensures ParseEnvelope(verify, e0 + (e1 + rest), EMPTY)
         == if verify(sender) then ParseRecipients(verify, rest, Envelope(message, "," + rest, sender, []))
            else Parsing(BAD_ADDRESS, EMPTY.(message := message))
  {
    NextFindsEncoding(e0, message, e1 + rest);
    NextFindsEncoding(e1, sender, rest);
  }

  lemma NextOfNothing()
    ensures Next("").Nothing?
  {
  }

  /** A reason determines the result, and on success all fields. */
  lemma {:induction false} ReasonDecides(r: ParseResult, verify: string -> bool, payload: string, es: seq<string>, items: seq<string>, rest: string)
    requires Reason(r, verify, payload, es, items, rest)
    ensures ParseEnvelope(verify, payload, EMPTY).result == r
    ensures r == SUCCESS ==> ParseEnvelope(verify, payload, EMPTY).fields == Filled(es, items, "")
  {
    if items == [] {
      assert payload == rest;
    } else if |items| == 1 {
      EncodingsTail(es, items);
      assert payload == es[0] + rest;
      NextFindsEncoding(es[0], items[0], rest);
    } else {
      EnvelopeReasonDecides(r, verify, es, items, rest);
    }
  }

  lemma {:induction false} EnvelopeReasonDecides(r: ParseResult, verify: string -> bool, es: seq<string>, items: seq<string>, rest: string)
    requires Encodings(es, items) && 2 <= |items| <= 2 + MAX_RECIPIENTS && AllVerified(verify, items[1..])
    requires Stops(r, verify, rest, |items| >= 3, |items| == 2 + MAX_RECIPIENTS)
    ensures ParseEnvelope(verify, Concat(es) + rest, EMPTY).result == r
    ensures r == SUCCESS ==> ParseEnvelope(verify, Concat(es) + rest, EMPTY).fields == Filled(es, items, "")
  {
    var after := Concat(es[2..]) + rest;
    EnvelopeSplits(es, items, rest);
    RunsPastMessage(verify, es[0], items[0], es[1], items[1], after);
    assert items[1] == items[1..][0];
    VerifiedTail(verify, items);
    RecipientReasonDecides(r, verify, es[2..], items[2..], rest, Envelope(items[0], "," + after, items[1], []));
  }

  lemma EnvelopeSplits(es: seq<string>, items: seq<string>, rest: string)
    requires Encodings(es, items) && |items| >= 2
    ensures Encodes(es[0], items[0]) && Encodes(es[1], items[1]) && Encodings(es[2..], items[2..])
    ensures Concat(es) + rest == es[0] + (es[1] + (Concat(es[2..]) + rest))
    ensures Concat(es) == es[0] + es[1] + Concat(es[2..])
  {
    EncodingsTail(es, items);
    EncodingsTail(es[1..], items[1..]);
    assert es[1..][1..] == es[2..] && items[1..][1..] == items[2..];
  }

  lemma VerifiedTail(verify: string -> bool, items: seq<string>)
    requires |items| >= 2 && AllVerified(verify, items[1..])
    ensures AllVerified(verify, items[2..])
  {
    assert forall v :: v in items[2..] ==> v in items[1..];
  }

  lemma {:induction false} RecipientReasonDecides(r: ParseResult, verify: string -> bool, es: seq<string>, vs: seq<string>, rest: string, e: Envelope)
    requires Encodings(es, vs) && AllVerified(verify, vs) && |vs| <= MAX_RECIPIENTS && e.recipients == []
    requires Stops(r, verify, rest, vs != [], |vs| == MAX_RECIPIENTS)
    ensures ParseRecipients(verify, Concat(es) + rest, e).result == r
    ensures r == SUCCESS ==> ParseRecipients(verify, Concat(es) + rest, e).fields == e.(recipients := vs)
  {
    NextOfNothing();
    if rest != "" {
      RecipientsConsume(verify, es, vs, rest, e);
    } else if vs == [] {
      assert Concat(es) + rest == rest;
    } else {
      RecipientsSucceed(verify, es, vs, e);
      assert Concat(es) + rest == Concat(es);
      assert Next(rest).Nothing?;
    }
  }

  lemma {:induction false} RecipientsSucceed(verify: string -> bool, es: seq<string>, vs: seq<string>, e: Envelope)
    requires Encodings(es, vs) && AllVerified(verify, vs) && 1 <= |vs| <= MAX_RECIPIENTS && e.recipients == []
    ensures ParseRecipients(verify, Concat(es), e) == Parsing(SUCCESS, e.(recipients := vs))
  {
    var n := |vs| - 1;
    LastEncoding(verify, es, vs);
    RecipientsEnd(verify, es[..n], vs[..n], es[n], vs[n], e);
  }

  lemma {:induction false} RecipientsEnd(verify: string -> bool, es: seq<string>, vs: seq<string>, last: string, value: string, e: Envelope)
    requires Encodings(es, vs) && AllVerified(verify, vs) && Encodes(last, value) && verify(value)
    requires |vs| < MAX_RECIPIENTS && e.recipients == []
    ensures ParseRecipients(verify, Concat(es) + last, e) == Parsing(SUCCESS, e.(recipients := vs + [value]))
  {
    var e' := AddRecipients(e, vs);
    assert e'.recipients == vs;
    RecipientsConsume(verify, es, vs, last, e);
    RecipientsFinish(verify, last, value, e');
  }

  lemma LastEncoding(verify: string -> bool, es: seq<string>, vs: seq<string>)
    requires Encodings(es, vs) && AllVerified(verify, vs) && vs != []
    ensures var n := |vs| - 1;
            && Encodings(es[..n], vs[..n]) && AllVerified(verify, vs[..n])
            && Encodes(es[n], vs[n]) && verify(vs[n])
            && Concat(es) == Concat(es[..n]) + es[n] && vs == vs[..n] + [vs[n]]
  {
    var n := |vs| - 1;
    assert es == es[..n] + [es[n]];
    ConcatAppend(es[..n], [es[n]]);
    ConcatOne(es[n]);
    assert vs[n] in vs;
  }

  /** Every payload has a reason for one of the four results. */
  lemma {:induction false} FindReason(verify: string -> bool, payload: string)
    returns (r: ParseResult, es: seq<string>, items: seq<string>, rest: string)
    ensures Reason(r, verify, payload, es, items, rest)
  {
    r, es, items, rest := MALFORMED, [], [], payload;
    if Next(payload).Found? {
      var Found(message, after) := Next(payload);
      NextSplits(payload, message, after);
      var e0 := payload[..|payload| - |after|];
      assert payload == e0 + after;
      if Next(after).Found? && verify(Next(after).value) {
        r, es, items, rest := FindEnvelopeReason(verify, e0, message, after);
      } else {
        ConcatOne(e0);
        es, items, rest := [e0], [message], after;
        r := if Next(after).Nothing? then MALFORMED else BAD_ADDRESS;
      }
    }
  }

  lemma {:induction false} FindEnvelopeReason(verify: string -> bool, e0: string, message: string, after: string)
    returns (r: ParseResult, es: seq<string>, items: seq<string>, rest: string)
    requires Encodes(e0, message) && Next(after).Found? && verify(Next(after).value)
    ensures Reason(r, verify, e0 + after, es, items, rest)
  {
    var Found(sender, after2) := Next(after);
    NextSplits(after, sender, after2);
    var e1 := after[..|after| - |after2|];
    assert after == e1 + after2;
    var rs, vs;
    rs, vs, rest := SplitRecipients(verify, after2, MAX_RECIPIENTS);
    r := StopReason(verify, rest, vs != [], MAX_RECIPIENTS - |vs|);
    EncodingsPrepend(e1, sender, rs, vs, rest);
    EncodingsPrepend(e0, message, [e1] + rs, [sender] + vs, rest);
    es, items := [e0] + ([e1] + rs), [message] + ([sender] + vs);
    assert items[1..] == [sender] + vs;
  }

  lemma StopReason(verify: string -> bool, rest: string, complete: bool, room: nat) returns (r: ParseResult)
    requires if rest == "" && complete then true else Stuck(verify, rest, room)
    ensures Stops(r, verify, rest, complete, room == 0)
  {
    r := if rest == "" && complete then SUCCESS
         else if Next(rest).Nothing? then MALFORMED
         else if !verify(Next(rest).value) then BAD_ADDRESS else TOO_MANY_RECIPIENTS;
  }

  /** First-error classification: the parser's result is `r` exactly when the payload has
      reason `r`. */
  lemma {:induction false} ParseResultIff(verify: string -> bool, payload: string, r: ParseResult)
    ensures ParseEnvelope(verify, payload, EMPTY).result == r
       <==> exists es, items, rest :: Reason(r, verify, payload, es, items, rest)
  {
    var found, es, items, rest := FindReason(verify, payload);
    ReasonDecides(found, verify, payload, es, items, rest);
    if es', items', rest' :| Reason(r, verify, payload, es', items', rest') {
      ReasonDecides(r, verify, payload, es', items', rest');
    }
  }

  /** `payload` is the accepted encodings `es` of a message, a verified sender and 1 to 1024
      verified recipients. */
  ghost predicate WellFormed(verify: string -> bool, payload: string, es: seq<string>, f: Envelope) {
    var items := [f.message, f.sender] + f.recipients;
    && Encodings(es, items)
    && payload == Concat(es)
    && verify(f.sender) && AllVerified(verify, f.recipients)
    && 1 <= |f.recipients| <= 1024
  }

  lemma WellFormedIsReason(verify: string -> bool, payload: string, es: seq<string>, f: Envelope)
    ensures WellFormed(verify, payload, es, f)
       <==> Reason(SUCCESS, verify, payload, es, [f.message, f.sender] + f.recipients, "")
  {
    var items := [f.message, f.sender] + f.recipients;
    assert items[1..] == [f.sender] + f.recipients;
    assert payload + "" == payload;
    assert f.sender in items[1..];
    assert forall v :: v in f.recipients ==> v in items[1..];
    assert Concat(es) + "" == Concat(es);
  }

  /** Soundness and completeness: success with fields `f` exactly for the payloads that are
      accepted encodings of a message, a verified sender and 1 to 1024 verified recipients, and
      then `f` is precisely these, with `tail` a comma and the recipients as they came. */
  lemma {:induction false} ParseSucceedsIff(verify: string -> bool, payload: string, f: Envelope)
    ensures ParseEnvelope(verify, payload, EMPTY) == Parsing(SUCCESS, f)
       <==> exists es :: WellFormed(verify, payload, es, f) && f.tail == "," + Concat(es[2..])
  {
    if ParseEnvelope(verify, payload, EMPTY) == Parsing(SUCCESS, f) {
      var es := FindWellFormed(verify, payload, f);
    }
    if es :| WellFormed(verify, payload, es, f) && f.tail == "," + Concat(es[2..]) {
      WellFormedParses(verify, payload, es, f);
    }
  }

  lemma {:induction false} WellFormedParses(verify: string -> bool, payload: string, es: seq<string>, f: Envelope)
    requires WellFormed(verify, payload, es, f)
    ensures ParseEnvelope(verify, payload, EMPTY) == Parsing(SUCCESS, f.(tail := "," + Concat(es[2..])))
  {
    var items := [f.message, f.sender] + f.recipients;
    WellFormedIsReason(verify, payload, es, f);
    ReasonDecides(SUCCESS, verify, payload, es, items, "");
    assert items[2..] == f.recipients;
    assert "," + Concat(es[2..]) + "" == "," + Concat(es[2..]);
  }

  lemma {:induction false} FindWellFormed(verify: string -> bool, payload: string, f: Envelope) returns (es: seq<string>)
    requires ParseEnvelope(verify, payload, EMPTY) == Parsing(SUCCESS, f)
    ensures WellFormed(verify, payload, es, f) && f.tail == "," + Concat(es[2..])
  {
    var r, items, rest;
    r, es, items, rest := FindReason(verify, payload);
    ReasonDecides(r, verify, payload, es, items, rest);
    FilledFrom(es, items);
    WellFormedIsReason(verify, payload, es, f);
  }

  lemma FilledFrom(es: seq<string>, items: seq<string>)
    requires 2 <= |items| == |es|
    ensures var f := Filled(es, items, "");
            items == [f.message, f.sender] + f.recipients && f.tail == "," + Concat(es[2..])
  {
  }

  // ------------------------------------------------------------ the tail slice

  function EncodeAll(vs: seq<string>): string {
    if vs == [] then "" else Encode(vs[0]) + EncodeAll(vs[1..])
  }

  lemma {:induction false} NonEmptyEncodings(es: seq<string>, vs: seq<string>)
    requires Encodings(es, vs) && "" !in vs
    ensures Concat(es) == EncodeAll(vs)
    decreases |es|
  {
    if es != [] {
      EncodingsTail(es, vs);
      assert vs[0] in vs;
      EncodesIff(es[0], vs[0]);
      NonEmptyEncodings(es[1..], vs[1..]);
    }
  }

  ghost predicate CanonicalTail(verify: string -> bool, payload: string) {
    var Parsing(result, f) := ParseEnvelope(verify, payload, EMPTY);
    result == SUCCESS ==> f.tail == "," + EncodeAll(f.recipients)
  }

  /** The tail slice equals the sender's comma followed by the recipients encoded one by one,
      provided the empty address is refused. */
  lemma {:induction false} TailIsCanonical(verify: string -> bool, payload: string)
    requires !verify("")
    ensures CanonicalTail(verify, payload)
  {
    if ParseEnvelope(verify, payload, EMPTY).result == SUCCESS {
      var f := ParseEnvelope(verify, payload, EMPTY).fields;
      var es := FindWellFormed(verify, payload, f);
      EnvelopeSplits(es, [f.message, f.sender] + f.recipients, "");
      assert ([f.message, f.sender] + f.recipients)[2..] == f.recipients;
      NonEmptyEncodings(es[2..], f.recipients);
    }
  }

  lemma EmptySpellings()
    ensures Encodes("0:,", "") && Encodes("00:,", "")
  {
    EncodesIff("0:,", "");
    EncodesIff("00:,", "");
  }

  /** An address check that accepts the empty string lets every spelling of it through. */
  lemma EmptyAddresses(verify: string -> bool, e0: string, e1: string, e2: string)
    requires verify("") && Encodes(e0, "") && Encodes(e1, "") && Encodes(e2, "")
    ensures ParseEnvelope(verify, e0 + e1 + e2, EMPTY) == Parsing(SUCCESS, Envelope("", "," + e2, "", [""]))
  {
    var f, es := Envelope("", "", "", [""]), [e0, e1, e2];
    EnvelopeSplits(es, ["", "", ""], "");
    assert es[2..] == [e2];
    ConcatOne(e2);
    assert [f.message, f.sender] + f.recipients == ["", "", ""];
    WellFormedParses(verify, e0 + e1 + e2, es, f);
  }

  /** Tail correctness on all payloads is exactly the refusal of the empty address. */
  lemma {:induction false} TailIsCanonicalIff(verify: string -> bool)
    ensures (forall payload :: CanonicalTail(verify, payload)) <==> !verify("")
  {
    if verify("") {
      var payload := NonCanonicalTail(verify);
    } else {
      forall payload
        ensures CanonicalTail(verify, payload)
      {
        TailIsCanonical(verify, payload);
      }
    }
  }

  lemma {:induction false} NonCanonicalTail(verify: string -> bool) returns (payload: string)
    requires verify("")
    ensures !CanonicalTail(verify, payload)
  {
    var e0, e2 := "0:,", "00:,";
    EmptySpellings();
    EmptyAddresses(verify, e0, e0, e2);
    EncodeEmpty();
    payload := e0 + e0 + e2;
  }

  lemma EncodeEmpty()
    ensures EncodeAll([""]) == "0:,"
  {
    assert Encode("") == "0:,";
    assert EncodeAll([""]) == Encode("") + EncodeAll([]);
  }

  // ------------------------------------------------------------ the class

  /** The byte in front of the recipients is the sender's comma. */
  lemma TailSlice(payload: string, message: string, afterMessage: string, sender: string, rest: string)
    requires Next(payload) == Found(message, afterMessage) && Next(afterMessage) == Found(sender, rest)
    ensures |rest| < |payload| && payload[|payload| - |rest| - 1..] == "," + rest
  {
    NextSplits(payload, message, afterMessage);
    NextSplits(afterMessage, sender, rest);
    EndsInComma(afterMessage[..|afterMessage| - |rest|], sender);
    CommaAndRest(afterMessage, rest);
    SuffixOfSuffix(payload, afterMessage, |rest| + 1);
  }

  lemma EndsInComma(e: string, v: string)
    requires Encodes(e, v)
    ensures e[|e| - 1] == ','
  {
    assert e[|e| - |v| - 2..][|v| + 1] == ',';
  }

  lemma CommaAndRest(s: string, rest: string)
    requires |rest| < |s| && s[|s| - |rest|..] == rest && s[|s| - |rest| - 1] == ','
    ensures s[|s| - |rest| - 1..] == "," + rest
  {
  }

  lemma SuffixOfSuffix(s: string, t: string, n: nat)
    requires n <= |t| <= |s| && s[|s| - |t|..] == t
    ensures s[|s| - n..] == t[|t| - n..]
  {
  }

  class QmqpMail {
    var message: string
    var tail: string
    var sender: string
    var recipients: seq<string>

    constructor ()
      ensures Fields() == EMPTY
    {
      message, tail, sender, recipients := "", "", "", [];
    }

    function Fields(): Envelope
      reads this
    {
      Envelope(message, tail, sender, recipients)
    }

    /** Fields already read stay set when a later part is refused; recipients are appended. */
    method Parse(verify: string -> bool, payload: string) returns (result: ParseResult)
      requires |payload| <= SIZE_MAX
      modifies this
      ensures Parsing(result, Fields()) == ParseEnvelope(verify, payload, old(Fields()))
    {
      var value, input := ParseNetstring(payload);
      if value.None? {
        return MALFORMED;
      }
      message := value.value;

      ghost var afterMessage := input;
      value, input := ParseNetstring(input);
      if value.None? {
        return MALFORMED;
      }
      if !verify(value.value) {
        return BAD_ADDRESS;
      }
      sender := value.value;

      TailSlice(payload, message, afterMessage, sender, input);
      tail := payload[|payload| - |input| - 1..];
      result := ParseAllRecipients(verify, input);
    }

    /** The do-while loop of `Parse`. */
    method ParseAllRecipients(verify: string -> bool, start: string) returns (result: ParseResult)
      requires |start| <= SIZE_MAX
      modifies this`recipients
      ensures Parsing(result, Fields()) == ParseRecipients(verify, start, old(Fields()))
    {
      var input, done := start, false;
      while !done
        invariant |input| <= |start|
        invariant old(Fields()).(recipients := recipients) == Fields()
        invariant ParseRecipients(verify, start, old(Fields()))
               == if done then Parsing(SUCCESS, Fields()) else ParseRecipients(verify, input, Fields())
        decreases !done, |input|
      {
        var value;
        value, input := ParseNetstring(input);
        if value.None? {
          return MALFORMED;
        }
        if !verify(value.value) {
          return BAD_ADDRESS;
        }
        if |recipients| >= MAX_RECIPIENTS {
          return TOO_MANY_RECIPIENTS;
        }
        recipients := recipients + [value.value];
        done := input == "";
      }
      return SUCCESS;
    }
  }
}
