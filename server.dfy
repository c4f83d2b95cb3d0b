/**
 * Request dispatch and the transcription hook of the server
 * (perception_voice/server.py): a request names a command and a client id,
 * and the server answers from the transcription store.
 */
module Dispatch {
  import opened Wrappers
  import opened Strings
  import opened Ipc
  import opened Store

  /** `request.get(key)` is truthy: the key is present with a non-empty string. */
  predicate HasField(request: Message, key: string) {
    key in request && request[key] != ""
  }

  /** What a request asks of the store: nothing, with an error message, or one of the two marker operations. */
  datatype Action = Fail(message: string) | SetFor(uid: string) | GetFor(uid: string)

  const MissingCommand: string := "missing 'command' field"
  const MissingUid: string := "missing 'uid' field"
  const UnknownCommand: string := "unknown command: "

  /**
   * The decision _process_request takes. The command is checked before the
   * uid, and the uid only for the two known commands.
   */
  function Route(request: Message): (a: Action)
    ensures !HasField(request, "command") ==> a == Fail(MissingCommand)
    ensures a.Fail? <==> !(HasField(request, "command") && request["command"] in {"set", "get"} && HasField(request, "uid"))
    ensures a.SetFor? <==> HasField(request, "uid") && HasField(request, "command") && request["command"] == "set"
    ensures a.GetFor? <==> HasField(request, "uid") && HasField(request, "command") && request["command"] == "get"
    ensures !a.Fail? ==> a.uid == request["uid"]
    ensures HasField(request, "command") && request["command"] in {"set", "get"} && !HasField(request, "uid")
            ==> a == Fail(MissingUid)
    ensures HasField(request, "command") && request["command"] !in {"set", "get"}
            ==> a == Fail(UnknownCommand + request["command"])
  {
    if !HasField(request, "command") then Fail(MissingCommand)
    else
      var command := request["command"];
      if command == "set" || command == "get" then
        if !HasField(request, "uid") then Fail(MissingUid)
        else if command == "set" then SetFor(request["uid"])
        else GetFor(request["uid"])
      else Fail(UnknownCommand + command)
  }

  /** A set request built by the client helper routes to that uid's marker, or is refused for an empty uid. */
  lemma RouteSetRequest(uid: string)
    ensures uid != "" ==> Route(MakeSetRequest(uid)) == SetFor(uid)
    ensures uid == "" ==> Route(MakeSetRequest(uid)) == Fail(MissingUid)
  {
    assert HasField(MakeSetRequest(uid), "command");
  }

  /** A get request built by the client helper routes to that uid's read, or is refused for an empty uid. */
  lemma RouteGetRequest(uid: string)
    ensures uid != "" ==> Route(MakeGetRequest(uid)) == GetFor(uid)
    ensures uid == "" ==> Route(MakeGetRequest(uid)) == Fail(MissingUid)
  {
    assert HasField(MakeGetRequest(uid), "command");
  }

  class Server {
    /** The store; none until the server has started. */
    var buffer: TranscriptionBuffer?

    constructor (buffer: TranscriptionBuffer?)
      ensures this.buffer == buffer
    {
      this.buffer := buffer;
    }

    /**
     * _process_request: a refused request changes nothing; `set` records the
     * marker and answers without text; `get` answers with the text (present
     * even when empty) and moves the marker.
     */
    method ProcessRequest(request: Message, now: int) returns (response: Message)
      requires buffer != null
      modifies buffer
      ensures Route(request).Fail? ==>
                && response == MakeErrorResponse(Route(request).message)
                && buffer.utterances == old(buffer.utterances)
                && buffer.readMarkers == old(buffer.readMarkers)
      ensures Route(request).SetFor? ==>
                && response == MakeOkResponse(None)
                && buffer.utterances == old(buffer.utterances)
                && buffer.readMarkers == old(buffer.readMarkers)[request["uid"] := now]
      ensures Route(request).GetFor? ==>
                && response == MakeOkResponse(Some(GetText(old(buffer.utterances), old(buffer.readMarkers), request["uid"], buffer.toJsonl)))
                && buffer.utterances == old(buffer.utterances)
                && buffer.readMarkers == MarkersAfterGet(old(buffer.utterances), old(buffer.readMarkers), request["uid"], now)
    {
      var action := Route(request);
      match action
      case Fail(message) =>
        response := MakeErrorResponse(message);
      case SetFor(uid) =>
        buffer.SetMarker(uid, now);
        response := MakeOkResponse(None);
      case GetFor(uid) =>
        var text := buffer.GetSinceMarker(uid, now);
        response := MakeOkResponse(Some(text));
    }

    /** _on_transcription: the text goes to the store's `add`, stamped now, when a store exists. */
    method OnTranscription(text: string, now: int)
      modifies buffer
      ensures buffer != null ==>
                && buffer.readMarkers == old(buffer.readMarkers)
                && buffer.utterances == (if Strip(text) != "" && NormalizePhrase(Strip(text)) !in buffer.discardPhrases
                                         then Evict(old(buffer.utterances) + [Utterance(now, Strip(text))], now, buffer.retentionMinutes)
                                         else old(buffer.utterances))
    {
      if buffer != null {
        var _ := buffer.Add(text, None, now);
      }
    }
  }
}
