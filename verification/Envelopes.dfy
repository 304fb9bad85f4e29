/** The message envelope that every adapter and the publish path share. */
module Envelopes {
  import opened Wrappers
  import opened Text

  /** A dynamically typed metadata value: what JSON can hold, plus the machine integers that adapters put there. */
  datatype Value =
    | Null
    | Bool(b: bool)
    | Int(i: Int64)
    | Float(x: real)
    | Str(s: string)
    | List(items: seq<Value>)
    | Object(fields: map<string, Value>)

  /** A timestamp is either a well-formed RFC 3339 instant or some other text. */
  datatype Timestamp = Rfc3339(seconds: int) | Malformed(text: string)

  datatype Envelope = Envelope(
    id: string, from: string, to: string, tag: string, content: string,
    metadata: map<string, Value>, timestamp: Timestamp)

  const META_TAG := "_tag"
  const META_ACTION := "_action"
  const META_ARGS := "_args"
  const META_RESULT := "_result"
  const META_REQUEST_ID := "_request_id"
  const META_CODE := "_code"
  const META_MESSAGE := "_message"
  const META_STREAM_ID := "_stream_id"
  const META_UPDATE := "_update"
  const META_PERCENTAGE := "_percentage"
  const META_TASK_ID := "_task_id"
  const META_STATUS := "_status"

  const META_ADAPTER := "adapter"

  const TAG_REQUEST_DATA := "request.data"
  const TAG_REQUEST_ACTION := "request.action"
  const TAG_RESPONSE_SUCCESS := "response.success"
  const TAG_RESPONSE_ERROR := "response.error"
  const TAG_PROGRESS_UPDATE := "progress.update"
  const TAG_CONTEXT_PROVIDE := "context-provide"

  const KNOWN_TAGS := {
    TAG_REQUEST_DATA, TAG_REQUEST_ACTION, TAG_RESPONSE_SUCCESS, TAG_RESPONSE_ERROR, "response.partial",
    TAG_CONTEXT_PROVIDE, "no-response", TAG_PROGRESS_UPDATE, "progress.stage", "error.recoverable", "error.fatal",
    "system.heartbeat", "system.join", "system.leave" }

  /** The tag used for routing: the user's own, or else the system's. */
  function EffectiveTag(env: Envelope): string {
    if !Blank(env.tag) then Trim(env.tag)
    else if META_TAG in env.metadata && env.metadata[META_TAG].Str? then Trim(env.metadata[META_TAG].s)
    else ""
  }

  predicate IsTagCharacter(c: char) {
    'a' <= c <= 'z' || '0' <= c <= '9' || c == '-'
  }

  predicate IsTagToken(token: string) {
    token != "" && forall i :: 0 <= i < |token| ==> IsTagCharacter(token[i])
  }

  /** A known tag, or any other dot-separated tokens: the family is not restricted. */
  predicate IsValidTag(tag: string) {
    && tag != ""
    && (tag in KNOWN_TAGS
        || (Trim(tag) == tag && forall i :: 0 <= i < |Split(tag, '.')| ==> IsTagToken(Split(tag, '.')[i])))
  }

  datatype EnvelopeError =
    | IdRequired | FromRequired | ToRequired | TimestampRequired | TagRequired | InvalidTag | InvalidTimestamp

  function Validate(env: Envelope): Option<EnvelopeError> {
    if Blank(env.id) then Some(IdRequired)
    else if Blank(env.from) then Some(FromRequired)
    else if Blank(env.to) then Some(ToRequired)
    else if env.timestamp.Malformed? && Blank(env.timestamp.text) then Some(TimestampRequired)
    else if EffectiveTag(env) == "" then Some(TagRequired)
    else if !IsValidTag(EffectiveTag(env)) then Some(InvalidTag)
    else if env.timestamp.Malformed? then Some(InvalidTimestamp)
    else None
  }

  // ---------------------------------------------------------------------------------------------
  // Which tags are valid
  // ---------------------------------------------------------------------------------------------

  /** Tokens of lower-case letters, digits and hyphens between single dots. */
  predicate WellDotted(tag: string) {
    && tag != "" && tag[0] != '.' && tag[|tag| - 1] != '.'
    && (forall i :: 0 <= i < |tag| ==> IsTagCharacter(tag[i]) || tag[i] == '.')
    && forall i :: 0 < i < |tag| && tag[i] == '.' ==> tag[i - 1] != '.'
  }

  predicate AreTokens(parts: seq<string>) {
    forall i :: 0 <= i < |parts| ==> IsTagToken(parts[i])
  }

  lemma {:induction false} TokensIff(tag: string)
    ensures AreTokens(Split(tag, '.')) <==> WellDotted(tag)
    decreases |tag|
  {
    hide IsTagCharacter;
    DotIsNoTagCharacter();
    var i := IndexOf(tag, '.');
    if i == |tag| {
      assert Split(tag, '.') == [tag];
      assert AreTokens([tag]) <==> IsTagToken(tag) by {
        assert [tag][0] == tag;
      }
      assert forall j :: 0 <= j < |tag| ==> tag[j] in tag[..i];
    } else {
      var head, rest := tag[..i], tag[i + 1..];
      TokensIff(rest);
      FirstAndRest(head, Split(rest, '.'));
      assert Split(tag, '.') == [head] + Split(rest, '.');
      DottedIff(tag, i);
    }
  }

  lemma DotIsNoTagCharacter()
    ensures !IsTagCharacter('.')
  {
  }

  lemma FirstAndRest(head: string, rest: seq<string>)
    ensures AreTokens([head] + rest) <==> IsTagToken(head) && AreTokens(rest)
  {
    var all := [head] + rest;
    if AreTokens(all) {
      assert all[0] == head;
      forall i | 0 <= i < |rest| ensures IsTagToken(rest[i]) {
        assert all[i + 1] == rest[i];
      }
    }
  }

  lemma DottedIff(tag: string, i: nat)
    requires i < |tag| && tag[i] == '.' && '.' !in tag[..i] && !IsTagCharacter('.')
    ensures WellDotted(tag) <==> IsTagToken(tag[..i]) && WellDotted(tag[i + 1..])
  {
    hide IsTagCharacter;
    var head, rest := tag[..i], tag[i + 1..];
    assert forall j :: 0 <= j < i ==> tag[j] == head[j];
    assert forall j :: 0 <= j < |rest| ==> rest[j] == tag[i + 1 + j];
    if IsTagToken(head) && WellDotted(rest) {
      assert rest[0] == tag[i + 1];
      forall j | 0 <= j < |tag| ensures IsTagCharacter(tag[j]) || tag[j] == '.' {
        if j > i {
          assert tag[j] == rest[j - i - 1];
        }
      }
      forall j | 0 < j < |tag| && tag[j] == '.' ensures tag[j - 1] != '.' {
        if j > i + 1 {
          assert tag[j] == rest[j - i - 1] && tag[j - 1] == rest[j - i - 2];
        }
      }
    }
    if WellDotted(tag) && rest != [] {
      assert rest[0] == tag[i + 1] && rest[|rest| - 1] == tag[|tag| - 1];
    }
  }

  lemma WellDottedIsTrimmed(tag: string)
    requires WellDotted(tag)
    ensures Trim(tag) == tag
  {
    TrimUnchanged(tag);
    assert IsTagCharacter(tag[0]) && IsTagCharacter(tag[|tag| - 1]);
  }

  lemma KnownTagsAreWellDotted()
    ensures WellDotted("request.data") && WellDotted("request.action")
    ensures WellDotted("response.success") && WellDotted("response.error") && WellDotted("response.partial")
  {
  }

  lemma OtherKnownTagsAreWellDotted()
    ensures WellDotted("context-provide") && WellDotted("no-response")
    ensures WellDotted("progress.update") && WellDotted("progress.stage")
    ensures WellDotted("error.recoverable") && WellDotted("error.fatal")
  {
  }

  lemma SystemTagsAreWellDotted()
    ensures WellDotted("system.heartbeat") && WellDotted("system.join") && WellDotted("system.leave")
  {
  }

  lemma KnownAreWellDotted(tag: string)
    requires tag in KNOWN_TAGS
    ensures WellDotted(tag)
  {
    hide WellDotted;
    KnownTagsAreWellDotted();
    OtherKnownTagsAreWellDotted();
    SystemTagsAreWellDotted();
  }

  /** A tag is valid exactly when it is tokens between single dots; that it is a known one adds nothing. */
  lemma ValidTagIff(tag: string)
    ensures IsValidTag(tag) <==> WellDotted(tag)
  {
    hide WellDotted, Trim, Split;
    TokensIff(tag);
    if tag in KNOWN_TAGS {
      KnownAreWellDotted(tag);
    }
    if WellDotted(tag) {
      WellDottedIsTrimmed(tag);
    }
    assert tag == "" ==> !WellDotted(tag) by {
      NotEmpty();
    }
  }

  lemma NotEmpty()
    ensures !WellDotted("")
  {
  }
}
