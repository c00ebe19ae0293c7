/**
 * The outbound WhatsApp message policy: the `whatsapp:` address prefix, the
 * 1600-character limit, the retry decision over the outcomes of each delivery
 * attempt, and the splitting of a long reply into numbered chunks. The
 * messaging provider is not modelled: each attempt's outcome is given.
 */
module Messaging {
  import opened Wrappers
  import opened Text

  const MaxLength: nat := 1600
  const RetryAttempts: nat := 3
  const Prefix: string := "whatsapp:"

  /** The outcome of one delivery attempt. */
  datatype Delivery =
    | Delivered            // the provider accepted the message
    | RestError(status: int) // the provider answered with an error status
    | Crashed              // any other exception

  /** Attempts that are retried while attempts remain: everything but success and status 400 or 404. */
  predicate Retryable(d: Delivery) {
    !d.Delivered? && !(d.RestError? && (d.status == 400 || d.status == 404))
  }

  /** The destination address: `whatsapp:` is added unless it is already there. */
  function Address(to: string): (r: string)
    ensures StartsWith(r, Prefix)
    ensures StartsWith(to, Prefix) ==> r == to
  {
    if StartsWith(to, Prefix) then to
    else
      assert (Prefix + to)[..|Prefix|] == Prefix;
      Prefix + to
  }

  /** `format_phone_number`: the number without one leading `whatsapp:`. */
  function FormatPhoneNumber(phone: string): (r: string)
    ensures StartsWith(phone, Prefix) ==> Prefix + r == phone
    ensures !StartsWith(phone, Prefix) ==> r == phone
  {
    if StartsWith(phone, Prefix) then
      assert phone == phone[..9] + phone[9..];
      phone[9..]
    else phone
  }

  /** Adding the prefix and formatting the number again lands where formatting alone does. */
  lemma FormatOfAddress(to: string)
    ensures FormatPhoneNumber(Address(to)) == FormatPhoneNumber(to)
  {
    if !StartsWith(to, Prefix) {
      var a := Prefix + to;
      assert a[..9] == Prefix;
      assert a[9..] == to;
    }
  }

  /** A prefixed address whose number does not itself start with the prefix is rebuilt from its formatted number. */
  lemma AddressOfFormat(phone: string)
    requires StartsWith(phone, Prefix) && !StartsWith(phone[9..], Prefix)
    ensures Address(FormatPhoneNumber(phone)) == phone
  {
  }

  /** The body that is sent: text over the limit keeps its first 1597 characters and gains `...`. */
  function Fit(message: string): (r: string)
    ensures |r| <= MaxLength
    ensures |message| <= MaxLength ==> r == message
    ensures |message| > MaxLength ==> |r| == MaxLength && r[..MaxLength - 3] == message[..MaxLength - 3] && r[MaxLength - 3..] == "..."
  {
    if |message| > MaxLength then
      var r := message[..MaxLength - 3] + "...";
      assert r[..MaxLength - 3] == message[..MaxLength - 3];
      r
    else message
  }

  lemma FitIdempotent(message: string)
    ensures Fit(Fit(message)) == Fit(message)
  {
  }

  /**
   * `send_message`: nothing is attempted without a client; otherwise the
   * address and body are prepared and delivery is attempted until it
   * succeeds, fails with status 400 or 404, or the third attempt fails.
   * `outcomes[k]` is what attempt `k` would give.
   */
  method SendMessage(clientReady: bool, to: string, message: string, outcomes: seq<Delivery>)
    returns (ok: bool, attempts: nat, dest: string, body: string)
    requires |outcomes| >= RetryAttempts
    ensures !clientReady ==> !ok && attempts == 0
    ensures clientReady ==> dest == Address(to) && body == Fit(message)
    ensures clientReady ==> 1 <= attempts <= RetryAttempts
    ensures clientReady ==> forall k :: 0 <= k < attempts - 1 ==> Retryable(outcomes[k])
    ensures clientReady && attempts < RetryAttempts ==> !Retryable(outcomes[attempts - 1])
    ensures clientReady ==> (ok <==> outcomes[attempts - 1].Delivered?)
  {
    dest, body := to, message;
    if !clientReady {
      return false, 0, dest, body;
    }
    if !StartsWith(dest, Prefix) {
      dest := Prefix + dest;
    }
    if |body| > MaxLength {
      body := body[..MaxLength - 3] + "...";
    }
    attempts := 0;
    while attempts < RetryAttempts
      invariant attempts <= RetryAttempts
      invariant forall k :: 0 <= k < attempts ==> Retryable(outcomes[k])
    {
      var outcome := outcomes[attempts];
      attempts := attempts + 1;
      match outcome {
        case Delivered =>
          return true, attempts, dest, body;
        case RestError(status) =>
          if status == 400 || status == 404 {
            return false, attempts, dest, body;
          }
          if attempts == RetryAttempts {
            return false, attempts, dest, body;
          }
        case Crashed =>
          if attempts == RetryAttempts {
            return false, attempts, dest, body;
          }
      }
    }
    ok := false;
  }

  /** One step of the chunking loop: the chunks so far and the current chunk, after `line`. */
  function ChunkStep(chunks: seq<string>, current: string, line: string): (seq<string>, string) {
    if |current + line + "\n"| > MaxLength then
      if current != "" then (chunks + [Strip(current)], line + "\n")
      else (chunks + [PyPrefix(line, MaxLength - 3) + "..."], current)
    else (chunks, current + line + "\n")
  }

  /** The chunking loop run over `lines`. */
  function ChunkLines(lines: seq<string>): (seq<string>, string) {
    if lines == [] then ([], "")
    else
      var prior := ChunkLines(lines[..|lines| - 1]);
      ChunkStep(prior.0, prior.1, lines[|lines| - 1])
  }

  /** The chunks of a message split into lines; the last current chunk is kept when it is not empty. */
  function Chunks(message: string): seq<string> {
    var state := ChunkLines(Split(message, '\n'));
    if state.1 != "" then state.0 + [Strip(state.1)] else state.0
  }

  /** The splitting loop of `send_message_chunks`. */
  method SplitChunks(message: string) returns (chunks: seq<string>)
    ensures chunks == Chunks(message)
  {
    var lines := Split(message, '\n');
    chunks := [];
    var current := "";
    for i := 0 to |lines|
      invariant chunks == ChunkLines(lines[..i]).0 && current == ChunkLines(lines[..i]).1
    {
      ChunkLinesStep(lines, i);
      var line := lines[i];
      if |current + line + "\n"| > MaxLength {
        if current != "" {
          chunks := chunks + [Strip(current)];
          current := line + "\n";
        } else {
          chunks := chunks + [PyPrefix(line, MaxLength - 3) + "..."];
        }
      } else {
        current := current + line + "\n";
      }
    }
    assert lines[..|lines|] == lines;
    if current != "" {
      chunks := chunks + [Strip(current)];
    }
  }

  /** The loop over one line more is one more step. */
  lemma ChunkLinesStep(lines: seq<string>, i: nat)
    requires i < |lines|
    ensures var prior := ChunkLines(lines[..i]);
      ChunkLines(lines[..i + 1]) == ChunkStep(prior.0, prior.1, lines[i])
  {
    assert lines[..i + 1][..i] == lines[..i];
  }

  predicate AllWithin(cs: seq<string>) { forall k :: 0 <= k < |cs| ==> |cs[k]| <= MaxLength }

  predicate LinesFit(lines: seq<string>) { forall k :: 0 <= k < |lines| ==> |lines[k]| < MaxLength }

  /** While every line fits, the chunking loop keeps every chunk and the current chunk within the limit. */
  lemma {:induction false} ChunkLinesWithin(lines: seq<string>)
    requires LinesFit(lines)
    ensures AllWithin(ChunkLines(lines).0) && |ChunkLines(lines).1| <= MaxLength
  {
    if lines != [] {
      var front := lines[..|lines| - 1];
      assert LinesFit(front) by {
        forall k | 0 <= k < |front| ensures |front[k]| < MaxLength {
          assert front[k] == lines[k];
        }
      }
      ChunkLinesWithin(front);
    }
  }

  /** When no line reaches the limit, no chunk is over it. */
  lemma ChunksWithin(message: string)
    requires LinesFit(Split(message, '\n'))
    ensures AllWithin(Chunks(message))
  {
    var state := ChunkLines(Split(message, '\n'));
    ChunkLinesWithin(Split(message, '\n'));
    if state.1 != "" {
      var cs := state.0 + [Strip(state.1)];
      forall k | 0 <= k < |cs|
        ensures |cs[k]| <= MaxLength
      {
        if k < |state.0| {
          assert cs[k] == state.0[k];
        }
      }
    }
  }

  /** `f"({i+1}/{n}) {chunk}"`. */
  function Label(i: nat, n: nat, chunk: string): string {
    "(" + NatToString(i + 1) + "/" + NatToString(n) + ") " + chunk
  }

  /** The messages sent for the chunks: labelled only when there is more than one. */
  function Labelled(cs: seq<string>): (r: seq<string>)
    ensures |r| == |cs|
    ensures forall i :: 0 <= i < |cs| ==> r[i] == (if |cs| > 1 then Label(i, |cs|, cs[i]) else cs[i])
  {
    seq(|cs|, i requires 0 <= i < |cs| => if |cs| > 1 then Label(i, |cs|, cs[i]) else cs[i])
  }

  /** A single chunk goes out as it is. */
  lemma SingleChunkUnlabelled(cs: seq<string>)
    requires |cs| <= 1
    ensures Labelled(cs) == cs
  {
  }

  /** Every message ends with its chunk, so removing the label gives the chunk back. */
  lemma LabelEndsWithChunk(cs: seq<string>, i: nat)
    requires i < |cs|
    ensures var m := Labelled(cs)[i]; |m| >= |cs[i]| && m[|m| - |cs[i]|..] == cs[i]
  {
    var m := Labelled(cs)[i];
    if |cs| > 1 {
      var head := "(" + NatToString(i + 1) + "/" + NatToString(|cs|) + ") ";
      assert m == head + cs[i];
      assert m[|head|..] == cs[i];
    }
  }

  /**
   * The sending loop of `send_message_chunks`: the chunks are sent in order,
   * labelled when there are several, and sending stops at the first failure.
   * `accepts(k)` is the result of the `k`-th send, and `sent` lists the texts
   * handed to it.
   */
  method SendAll(chunks: seq<string>, accepts: nat -> bool) returns (success: bool, sent: seq<string>)
    ensures var msgs := Labelled(chunks);
      |sent| <= |msgs| && sent == msgs[..|sent|]
      && (forall k :: 0 <= k < |sent| - 1 ==> accepts(k))
      && (success <==> |sent| == |msgs| && forall k :: 0 <= k < |msgs| ==> accepts(k))
      && (!success ==> |sent| >= 1 && !accepts(|sent| - 1))
  {
    ghost var msgs := Labelled(chunks);
    sent := [];
    var i := 0;
    while i < |chunks|
      invariant 0 <= i <= |chunks| && |msgs| == |chunks|
      invariant sent == msgs[..i]
      invariant forall k :: 0 <= k < i ==> accepts(k)
    {
      var chunkMessage := if |chunks| > 1 then Label(i, |chunks|, chunks[i]) else chunks[i];
      assert msgs[i] == chunkMessage;
      assert msgs[..i + 1] == msgs[..i] + [chunkMessage];
      sent := sent + [chunkMessage];
      if !accepts(i) {
        return false, sent;
      }
      i := i + 1;
    }
    assert msgs[..|chunks|] == msgs;
    success := true;
  }

  /** `send_message_chunks`: a message within the limit is one send; a longer one is split and its chunks sent. */
  method SendChunks(message: string, accepts: nat -> bool) returns (success: bool, sent: seq<string>)
    ensures |message| <= MaxLength ==> sent == [message] && success == accepts(0)
    ensures |message| > MaxLength ==> var msgs := Labelled(Chunks(message));
      |sent| <= |msgs| && sent == msgs[..|sent|]
      && (forall k :: 0 <= k < |sent| - 1 ==> accepts(k))
      && (success <==> |sent| == |msgs| && forall k :: 0 <= k < |msgs| ==> accepts(k))
      && (!success ==> |sent| >= 1 && !accepts(|sent| - 1))
  {
    if |message| <= MaxLength {
      return accepts(0), [message];
    }
    var chunks := SplitChunks(message);
    success, sent := SendAll(chunks, accepts);
  }

  /** `validate_webhook`: with no validator every request passes; a validator that raises rejects it. */
  function ValidateWebhook(validator: Option<Result<bool>>): (r: bool)
    ensures r <==> validator.None? || validator == Some(Ok(true))
  {
    match validator
    case None => true
    case Some(Raised) => false
    case Some(Ok(b)) => b
  }
}
