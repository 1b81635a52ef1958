/** src/BasicRelay.cxx, and the header assembly of src/Connection.cxx: the QMQP request that
    leaves qrelay, as the list of byte fragments it is sent from, and the reply that comes back. */
module BasicRelayModel {
  import opened Base
  import opened Netstring
  import opened QmqpMailModel
  import opened MailModel
  import Decimal

  // ------------------------------------------------------------ headers added by the relay

  /** Peer credentials of the client, if the kernel knows them. */
  datatype Cred = Cred(pid: nat, uid: nat)

  function ReceivedText(cred: Cred): string {
    "Received: from PID=" + Decimal.ToText(cred.pid) + " UID=" + Decimal.ToText(cred.uid) + " with QMQP"
  }

  function ReceivedLine(cred: Cred): string {
    ReceivedText(cred) + "\r\n"
  }

  /** The formatted line fits its 256-byte buffer for all 32-bit ids. */
  lemma ReceivedFits(cred: Cred)
    requires cred.pid < 0x8000_0000 && cred.uid < 0x1_0000_0000
    ensures |ReceivedLine(cred)| <= 256
  {
    assert Decimal.Pow10(10) == 10_000_000_000;
    Decimal.TextLength(cred.pid, 10);
    Decimal.TextLength(cred.uid, 10);
  }

  /** The decimal number `n` as it is usually written. */
  predicate Denotes(digits: string, n: nat) {
    && digits != "" && Decimal.AllDigits(digits) && Decimal.Value(digits) == n
    && (digits[0] == '0' ==> digits == "0")
  }

  lemma TextDenotes(n: nat)
    ensures Denotes(Decimal.ToText(n), n)
  {
    Decimal.ValueOfText(n);
  }

  /** `value` is what a `Received` field says of a client. */
  ghost predicate NamesClient(value: string, cred: Cred) {
    exists p, u :: Denotes(p, cred.pid) && Denotes(u, cred.uid) && value == " from PID=" + p + " UID=" + u + " with QMQP"
  }

  /** The line is a `Received` field with the client's process id and user id. */
  lemma ReceivedSays(cred: Cred) returns (value: string)
    ensures ReceivedLine(cred) == "Received:" + value + "\r\n" && NamesClient(value, cred)
  {
    var p, u := Decimal.ToText(cred.pid), Decimal.ToText(cred.uid);
    TextDenotes(cred.pid);
    TextDenotes(cred.uid);
    value := " from PID=" + p + " UID=" + u + " with QMQP";
    assert ReceivedText(cred) == "Received:" + value;
  }

  /** The line tells exactly which client it was. */
  lemma ReceivedIdentifies(a: Cred, b: Cred)
    requires ReceivedText(a) == ReceivedText(b)
    ensures a == b
  {
    TwoNumbers("Received: from PID=", " UID=", " with QMQP",
               Decimal.ToText(a.pid), Decimal.ToText(a.uid), Decimal.ToText(b.pid), Decimal.ToText(b.uid));
    Decimal.ValueOfText(a.pid);
    Decimal.ValueOfText(b.pid);
    Decimal.ValueOfText(a.uid);
    Decimal.ValueOfText(b.uid);
  }

  lemma TwoNumbers(prefix: string, middle: string, suffix: string, p: string, u: string, q: string, v: string)
    requires prefix + p + middle + u + suffix == prefix + q + middle + v + suffix
    requires Decimal.AllDigits(p) && Decimal.AllDigits(u) && Decimal.AllDigits(q) && Decimal.AllDigits(v)
    requires middle != "" && !Decimal.IsDigit(middle[0]) && suffix != "" && !Decimal.IsDigit(suffix[0])
    ensures p == q && u == v
  {
    var (x, y) := (middle + (u + suffix), middle + (v + suffix));
    assert prefix + p + middle + u + suffix == prefix + (p + x);
    assert prefix + q + middle + v + suffix == prefix + (q + y);
    SamePrefix(prefix, p + x, q + y);
    DigitsThenOther(p, x, q, y);
    SamePrefix(middle, u + suffix, v + suffix);
    DigitsThenOther(u, suffix, v, suffix);
  }

  lemma SamePrefix(prefix: string, s: string, t: string)
    requires prefix + s == prefix + t
    ensures s == t
  {
    assert s == (prefix + s)[|prefix|..];
  }

  /** Digits end at the first other character. */
  lemma DigitsThenOther(p: string, x: string, q: string, y: string)
    requires p + x == q + y && Decimal.AllDigits(p) && Decimal.AllDigits(q)
    requires x != "" && !Decimal.IsDigit(x[0]) && y != "" && !Decimal.IsDigit(y[0])
    ensures p == q && x == y
  {
    Decimal.RunOfDigits(p, x);
    Decimal.RunOfDigits(q, y);
    assert p == (p + x)[..|p|] && q == (q + y)[..|q|];
    assert x == (p + x)[|p|..] && y == (q + y)[|q|..];
  }

  /** What stands in front of the message: inserted headers, then `Received`. */
  function AdditionalHeaders(headers: seq<string>, cred: Option<Cred>): seq<string> {
    headers + (if cred.Some? then [ReceivedLine(cred.value)] else [])
  }

  // ------------------------------------------------------------ the request

  /** The QMQP payload of a mail whose recipients are given by a tail slice. */
  function Wire(message: string, sender: string, tail: string): string {
    Encode(message) + (Header(|sender|) + sender + tail)
  }

  /** The request as the list of fragments it is sent from. */
  function RequestFragments(mail: Envelope, additionalHeaders: seq<string>): seq<string> {
    Framed(additionalHeaders + [mail.message]) + [Header(|mail.sender|), mail.sender, mail.tail]
  }

  /** The fragments together are a mail whose message has the headers in front. */
  lemma FragmentsAreWire(mail: Envelope, additionalHeaders: seq<string>)
    ensures Concat(RequestFragments(mail, additionalHeaders))
         == Wire(Concat(additionalHeaders) + mail.message, mail.sender, mail.tail)
    ensures |RequestFragments(mail, additionalHeaders)| == |additionalHeaders| + 6
  {
    var message := additionalHeaders + [mail.message];
    ConcatSnoc(additionalHeaders, mail.message);
    FramedIsNetstring(message);
    ConcatAppend(Framed(message), [Header(|mail.sender|), mail.sender, mail.tail]);
    ConcatSnoc([Header(|mail.sender|)] + [mail.sender], mail.tail);
    ConcatSnoc([Header(|mail.sender|)], mail.sender);
    ConcatOne(Header(|mail.sender|));
    assert [Header(|mail.sender|)] + [mail.sender] + [mail.tail] == [Header(|mail.sender|), mail.sender, mail.tail];
  }

  /** A request frame: what the netstring generator puts around a list of fragments. */
  function Framed(request: seq<string>): seq<string> {
    [Header(|Concat(request)|)] + request + [","]
  }

  lemma FramedIsNetstring(request: seq<string>)
    ensures Concat(Framed(request)) == Encode(Concat(request))
    ensures |Framed(request)| == |request| + 2
  {
    ConcatAppend([Header(|Concat(request)|)] + request, [","]);
    ConcatAppend([Header(|Concat(request)|)], request);
    ConcatOne(Header(|Concat(request)|));
    ConcatOne(",");
  }

  /** Splicing the tail slice behind a new message and sender is a mail again: the new message
      and sender with the recipients of the mail the slice was cut from. */
  lemma {:induction false} WireReparses(verify: string -> bool, payload: string, f: Envelope, message: string, sender: string)
    requires ParseEnvelope(verify, payload, EMPTY) == Parsing(SUCCESS, f)
    requires verify(sender) && |message| <= SIZE_MAX && |sender| <= SIZE_MAX
    ensures ParseEnvelope(verify, Wire(message, sender, f.tail), EMPTY)
         == Parsing(SUCCESS, f.(message := message, sender := sender))
  {
    var es := FindWellFormed(verify, payload, f);
    var es' := [Encode(message), Encode(sender)] + es[2..];
    SwapEnvelope(verify, es, f, message, sender);
    SpliceIsConcat(message, sender, es[2..]);
    SpliceParses(verify, es', f, message, sender);
    assert es'[2..] == es[2..];
  }

  lemma SpliceIsConcat(message: string, sender: string, rest: seq<string>)
    ensures Concat([Encode(message), Encode(sender)] + rest) == Wire(message, sender, "," + Concat(rest))
  {
    var es := [Encode(message), Encode(sender)] + rest;
    assert es[1..] == [Encode(sender)] + rest && es[1..][1..] == rest;
    assert Concat(es) == Encode(message) + (Encode(sender) + Concat(rest));
    assert Encode(sender) + Concat(rest) == Header(|sender|) + sender + ("," + Concat(rest));
  }

  lemma SpliceParses(verify: string -> bool, es: seq<string>, f: Envelope, message: string, sender: string)
    requires Encodings(es, [message, sender] + f.recipients)
    requires verify(sender) && AllVerified(verify, f.recipients) && 1 <= |f.recipients| <= MAX_RECIPIENTS
    ensures ParseEnvelope(verify, Concat(es), EMPTY)
         == Parsing(SUCCESS, f.(message := message, sender := sender, tail := "," + Concat(es[2..])))
  {
    WellFormedParses(verify, Concat(es), es, f.(message := message, sender := sender));
  }

  lemma {:induction false} SwapEnvelope(verify: string -> bool, es: seq<string>, f: Envelope, message: string, sender: string)
    requires Encodings(es, [f.message, f.sender] + f.recipients)
    requires |message| <= SIZE_MAX && |sender| <= SIZE_MAX
    ensures Encodings([Encode(message), Encode(sender)] + es[2..], [message, sender] + f.recipients)
  {
    EncodeIsAccepted(message);
    EncodeIsAccepted(sender);
    var es', items, items' := [Encode(message), Encode(sender)] + es[2..], [f.message, f.sender] + f.recipients, [message, sender] + f.recipients;
    forall i | 0 <= i < |es'|
      ensures Encodes(es'[i], items'[i])
    {
      if i >= 2 {
        assert es'[i] == es[i] && items'[i] == items[i];
      }
    }
  }

  // ------------------------------------------------------------ the reply

  /** What a relay tells its handler: a response from the other side, or an error with the
      response to give for it. */
  datatype Notification = Response(text: string) | Failure(text: string)

  predicate IsValidQmqpResponse(payload: string) {
    payload != "" && (payload[0] == 'K' || payload[0] == 'D' || payload[0] == 'Z')
  }

  function ReplyOutcome(payload: string): Notification {
    if IsValidQmqpResponse(payload) then Response(payload) else Failure("Zmalformed relay response")
  }

  const RELAY_FAILED := Failure("Zrelay failed")

  class BasicRelay {
    var request: seq<string>

    /** The request list is built in place around the additional headers. */
    constructor (mail: Envelope, additionalHeaders: seq<string>)
      ensures request == RequestFragments(mail, additionalHeaders)
    {
      request := additionalHeaders;
      new;
      request := request + [mail.message];
      Generate();
      request := request + [Header(|mail.sender|)];
      request := request + [mail.sender];
      request := request + [mail.tail];
    }

    /** The netstring generator: a length header in front and a comma behind. */
    method Generate()
      modifies this
      ensures request == Framed(old(request))
    {
      var total := 0;
      var i := 0;
      while i < |request|
        invariant 0 <= i <= |request| && request == old(request)
        invariant total == |Concat(request[..i])|
      {
        assert request[..i + 1] == request[..i] + [request[i]];
        ConcatSnoc(request[..i], request[i]);
        total := total + |request[i]|;
        i := i + 1;
      }
      assert request[..i] == request;
      request := [Header(total)] + request + [","];
    }

    method OnNetstringResponse(payload: string) returns (n: Notification)
      ensures n == ReplyOutcome(payload)
    {
      if !IsValidQmqpResponse(payload) {
        return Failure("Zmalformed relay response");
      }
      return Response(payload);
    }

    method OnNetstringError() returns (n: Notification)
      ensures n == RELAY_FAILED
    {
      return Failure("Zrelay failed");
    }
  }

  lemma ConcatSnoc(parts: seq<string>, last: string)
    ensures Concat(parts + [last]) == Concat(parts) + last
  {
    ConcatAppend(parts, [last]);
    ConcatOne(last);
  }

  /** What a reply from the other side is worth to the client: a QMQP response starts with one of
      three bytes, and anything else is a temporary error. */
  function ReplyText(payload: string): string {
    if payload != "" && payload[0] in {'K', 'D', 'Z'} then payload else "Zmalformed relay response"
  }

  /** Every QMQP response is passed on as it is, temporary and permanent refusals too; so the client
      sees a success only if the other side said so. */
  lemma ReplyOutcomeIs(payload: string)
    ensures ReplyOutcome(payload).text == ReplyText(payload)
    ensures ReplyOutcome(payload).Response? <==> payload != "" && payload[0] in {'K', 'D', 'Z'}
    ensures IsValidQmqpResponse(ReplyText(payload))
    ensures ReplyText(payload)[0] == 'K' <==> payload != "" && payload[0] == 'K'
  {
  }
}
