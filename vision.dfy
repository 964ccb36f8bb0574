/**
  * The planner client (`AIVision`): how a planner reply becomes the value its callers
  * receive. All three reply handlers (plan, element location, verification) clean the
  * reply with the same code-fence chain, decode it, and fall back to a fixed value when
  * decoding fails. The network call itself is not modelled: a reply is a parameter, and
  * `chat_with_context` receives the planner as a function of the message list.
  */
module Vision {
  import opened Common
  import opened Json
  import PyStr

  const JsonFence: string := "```json"
  const Fence: string := "```"

  /** The model name every request names. */
  const ModelName: string := "claude-3-5-sonnet-20241022"

  // ----- client construction -----

  datatype Client = Client(apiKey: string, model: string)

  /**
    * `AIVision(api_key)`: the explicit key wins when it is non-empty, else the
    * `ANTHROPIC_API_KEY` environment value; if neither is a non-empty string, ValueError.
    */
  function NewClient(apiKey: Option<string>, envKey: Option<string>): (r: Result<Client, PyError>)
    ensures r.Ok? <==> (apiKey.Some? && apiKey.value != "") || (envKey.Some? && envKey.value != "")
    ensures r.Err? ==> r.error == ValueError
    ensures r.Ok? ==> r.value.model == ModelName
    ensures r.Ok? && apiKey.Some? && apiKey.value != "" ==> r.value.apiKey == apiKey.value
    ensures r.Ok? && !(apiKey.Some? && apiKey.value != "") ==> Some(r.value.apiKey) == envKey
  {
    var key := if apiKey.Some? && apiKey.value != "" then apiKey else envKey;
    if key.None? || key.value == "" then Err(ValueError) else Ok(Client(key.value, ModelName))
  }

  // ----- cleaning a reply -----

  /** The code-fence chain, as the code writes it with `str.split`. */
  function StripFences(reply: string): string
  {
    if PyStr.Contains(reply, JsonFence) then PyStr.Split(PyStr.Split(reply, JsonFence)[1], Fence)[0]
    else if PyStr.Contains(reply, Fence) then PyStr.Split(PyStr.Split(reply, Fence)[1], Fence)[0]
    else reply
  }

  lemma InfixOfFenceFree(s: string, t: string)
    requires PyStr.Contains(s, t) && !PyStr.Contains(s, Fence)
    ensures !PyStr.Contains(t, Fence)
  {
    if PyStr.Contains(t, Fence) {
      PyStr.ContainsTransitive(s, t, Fence);
    }
  }

  /** A text with a "```json" marker contains a bare "```" marker. */
  lemma JsonFenceIsFence(s: string)
    requires PyStr.Contains(s, JsonFence)
    ensures PyStr.Contains(s, Fence)
  {
    assert PyStr.OccursAt(JsonFence, Fence, 0);
    PyStr.ContainsTransitive(s, JsonFence, Fence);
  }

  /**
    * The text each reply handler passes to `json.loads`: an infix of the reply that
    * contains no "```" marker.
    */
  function CleanReply(reply: string): (t: string)
    ensures PyStr.Contains(reply, t)
    ensures !PyStr.Contains(t, Fence)
  {
    var f := StripFences(reply);
    assert PyStr.Contains(reply, f) && !PyStr.Contains(f, Fence) by {
      if PyStr.Contains(reply, JsonFence) {
        var p := PyStr.Split(reply, JsonFence)[1];
        PyStr.SplitPiecesAreInfixes(reply, JsonFence, 1);
        PyStr.SplitPiecesAreInfixes(p, Fence, 0);
        PyStr.ContainsTransitive(reply, p, f);
      } else if PyStr.Contains(reply, Fence) {
        var p := PyStr.Split(reply, Fence)[1];
        PyStr.SplitPiecesAreInfixes(reply, Fence, 1);
        PyStr.SplitPiecesAreInfixes(p, Fence, 0);
        PyStr.ContainsTransitive(reply, p, f);
      } else {
        assert PyStr.OccursAt(reply, reply, 0);
      }
    }
    var t := PyStr.Strip(f);
    PyStr.ContainsTransitive(reply, f, t);
    InfixOfFenceFree(f, t);
    t
  }

  /**
    * "```json" wins wherever it is: the text decoded is what follows the first "```json",
    * cut at the next "```json", then cut at its first "```", then stripped.
    */
  lemma JsonFenceBranch(reply: string)
    requires PyStr.Contains(reply, JsonFence)
    ensures PyStr.Find(reply, JsonFence).Some?
    ensures var i := PyStr.Find(reply, JsonFence).value;
            CleanReply(reply)
            == PyStr.Strip(PyStr.Head(PyStr.Head(reply[i + |JsonFence|..], JsonFence), Fence))
  {
    PyStr.SplitSecond(reply, JsonFence);
    PyStr.SplitFirst(PyStr.Split(reply, JsonFence)[1], Fence);
  }

  /**
    * Without "```json" but with "```": the text decoded is what lies between the first
    * and the second "```" (or runs to the end), stripped.
    */
  lemma BareFenceBranch(reply: string)
    requires !PyStr.Contains(reply, JsonFence) && PyStr.Contains(reply, Fence)
    ensures PyStr.Find(reply, Fence).Some?
    ensures var i := PyStr.Find(reply, Fence).value;
            CleanReply(reply) == PyStr.Strip(PyStr.Head(reply[i + |Fence|..], Fence))
  {
    var p := PyStr.Split(reply, Fence)[1];
    PyStr.SplitSecond(reply, Fence);
    PyStr.SplitFirst(p, Fence);
    PyStr.HeadOfSepFree(p, Fence);
  }

  /** A reply without any "```" reaches the decoder unchanged but for surrounding whitespace. */
  lemma NoFenceBranch(reply: string)
    requires !PyStr.Contains(reply, Fence)
    ensures CleanReply(reply) == PyStr.Strip(reply)
  {
    if PyStr.Contains(reply, JsonFence) {
      JsonFenceIsFence(reply);
    }
  }

  /** Cleaning a cleaned reply changes nothing. */
  lemma CleanReplyIdempotent(reply: string)
    ensures CleanReply(CleanReply(reply)) == CleanReply(reply)
  {
    var c := CleanReply(reply);
    if PyStr.Contains(c, JsonFence) {
      JsonFenceIsFence(c);
    }
    assert StripFences(c) == c;
    PyStr.StripIdempotent(StripFences(reply));
  }

  // ----- get_actions_from_instruction -----

  const PlanErrorPrefix: string := "Error al parsear respuesta de IA: "

  /** The plan returned when the reply does not decode. */
  function PlanFallback(message: string): (plan: Json)
    ensures plan.JObject?
    ensures Get(plan, "actions", JNull) == JArray([])
    ensures Get(plan, "warnings", JNull) == JArray([JString(PlanErrorPrefix + message)])
    ensures Get(plan, "success_criteria", JNull) == JString("N/A")
  {
    var fields := [
      ("analysis", JString("Error al procesar la respuesta")),
      ("strategy", JString("No se pudo determinar")),
      ("actions", JArray([])),
      ("warnings", JArray([JString(PlanErrorPrefix + message)])),
      ("success_criteria", JString("N/A"))];
    LookupAt(fields, "actions", 2);
    LookupAt(fields, "warnings", 3);
    LookupAt(fields, "success_criteria", 4);
    JObject(fields)
  }

  /**
    * What `get_actions_from_instruction` returns for a planner reply: the decoded value
    * as it is, with no check of its fields; on a decode error, a plan with no actions,
    * exactly one warning carrying the decoder's message and success criteria "N/A".
    */
  function PlanFromReply(reply: string, decode: string -> Decoded): (plan: Json)
    ensures var d := decode(CleanReply(reply));
            d.Decoded? ==> plan == d.value
    ensures var d := decode(CleanReply(reply));
            d.DecodeError? ==>
              && plan.JObject?
              && Get(plan, "actions", JNull) == JArray([])
              && Get(plan, "warnings", JNull) == JArray([JString(PlanErrorPrefix + d.message)])
              && Get(plan, "success_criteria", JNull) == JString("N/A")
  {
    match decode(CleanReply(reply))
    case Decoded(v) => v
    case DecodeError(message) => PlanFallback(message)
  }

  // ----- find_element -----

  datatype Location = Location(x: Json, y: Json)

  /**
    * What `find_element` does with a planner reply: `Ok(Some(loc))` for the dict `{x, y}`,
    * `Ok(None)` for `None`, `Err(e)` for an exception that escapes (only the decode
    * error is caught).
    */
  function LocateFromReply(reply: string, decode: string -> Decoded): (r: Result<Option<Location>, PyError>)
    ensures var d := decode(CleanReply(reply));
            r.Ok? && r.value.Some? <==>
              d.Decoded? && d.value.JObject? && Truthy(Get(d.value, "found", JNull))
              && Has(d.value, "x") && Has(d.value, "y")
    ensures var d := decode(CleanReply(reply));
            r.Ok? && r.value.Some? ==>
              Lookup(d.value.fields, "x") == Some(r.value.value.x)
              && Lookup(d.value.fields, "y") == Some(r.value.value.y)
    ensures var d := decode(CleanReply(reply));
            r == Ok(None) <==>
              d.DecodeError? || (d.value.JObject? && !Truthy(Get(d.value, "found", JNull)))
    ensures var d := decode(CleanReply(reply));
            r.Err? <==>
              d.Decoded? && (!d.value.JObject? ||
                (Truthy(Get(d.value, "found", JNull)) && (!Has(d.value, "x") || !Has(d.value, "y"))))
    ensures var d := decode(CleanReply(reply));
            d.Decoded? && !d.value.JObject? ==> r == Err(AttributeError)
    ensures var d := decode(CleanReply(reply));
            d.Decoded? && d.value.JObject? && Truthy(Get(d.value, "found", JNull)) ==>
              && (!Has(d.value, "x") ==> r == Err(KeyError("x")))
              && (Has(d.value, "x") && !Has(d.value, "y") ==> r == Err(KeyError("y")))
  {
    match decode(CleanReply(reply))
    case DecodeError(_) => Ok(None)
    case Decoded(v) =>
      if !v.JObject? then Err(AttributeError)
      else if !Truthy(Get(v, "found", JNull)) then Ok(None)
      else if !Has(v, "x") then Err(KeyError("x"))
      else if !Has(v, "y") then Err(KeyError("y"))
      else Ok(Some(Location(Get(v, "x", JNull), Get(v, "y", JNull))))
  }

  // ----- verify_action_completed -----

  /** The verdict returned when the reply does not decode. */
  function VerdictFallback(): (verdict: Json)
    ensures verdict.JObject?
    ensures Get(verdict, "success", JNull) == JBool(false)
    ensures Get(verdict, "changes_detected", JNull) == JArray([])
    ensures Get(verdict, "explanation", JNull) == JString("Error al verificar cambios")
    ensures Get(verdict, "confidence", JNull) == JString("low")
  {
    var fields := [
      ("success", JBool(false)),
      ("changes_detected", JArray([])),
      ("explanation", JString("Error al verificar cambios")),
      ("confidence", JString("low"))];
    LookupAt(fields, "success", 0);
    LookupAt(fields, "changes_detected", 1);
    LookupAt(fields, "explanation", 2);
    LookupAt(fields, "confidence", 3);
    JObject(fields)
  }

  /**
    * What `verify_action_completed` returns for a planner reply: the decoded value as it
    * is; on a decode error, a failed, low-confidence verdict with no detected changes.
    */
  function VerdictFromReply(reply: string, decode: string -> Decoded): (verdict: Json)
    ensures var d := decode(CleanReply(reply));
            d.Decoded? ==> verdict == d.value
    ensures var d := decode(CleanReply(reply));
            d.DecodeError? ==>
              && verdict.JObject?
              && Get(verdict, "success", JNull) == JBool(false)
              && Get(verdict, "changes_detected", JNull) == JArray([])
              && Get(verdict, "confidence", JNull) == JString("low")
  {
    match decode(CleanReply(reply))
    case Decoded(v) => v
    case DecodeError(_) => VerdictFallback()
  }

  /**
    * The three handlers depend on the reply only through its cleaned text: handing them
    * the cleaned text instead of the reply gives the same answers.
    */
  lemma HandlersSeeOnlyCleanedText(reply: string, decode: string -> Decoded)
    ensures PlanFromReply(CleanReply(reply), decode) == PlanFromReply(reply, decode)
    ensures LocateFromReply(CleanReply(reply), decode) == LocateFromReply(reply, decode)
    ensures VerdictFromReply(CleanReply(reply), decode) == VerdictFromReply(reply, decode)
  {
    CleanReplyIdempotent(reply);
    PlanSeesOnlyCleanedText(reply, decode);
    LocateSeesOnlyCleanedText(reply, decode);
    VerdictSeesOnlyCleanedText(reply, decode);
  }

  lemma PlanSeesOnlyCleanedText(reply: string, decode: string -> Decoded)
    requires CleanReply(CleanReply(reply)) == CleanReply(reply)
    ensures PlanFromReply(CleanReply(reply), decode) == PlanFromReply(reply, decode)
  {
  }

  lemma LocateSeesOnlyCleanedText(reply: string, decode: string -> Decoded)
    requires CleanReply(CleanReply(reply)) == CleanReply(reply)
    ensures LocateFromReply(CleanReply(reply), decode) == LocateFromReply(reply, decode)
  {
  }

  lemma VerdictSeesOnlyCleanedText(reply: string, decode: string -> Decoded)
    requires CleanReply(CleanReply(reply)) == CleanReply(reply)
    ensures VerdictFromReply(CleanReply(reply), decode) == VerdictFromReply(reply, decode)
  {
  }

  // ----- chat_with_context -----

  datatype Block = ImageBlock(base64Png: string) | TextBlock(text: string)

  datatype Message = Message(role: string, content: seq<Block>)

  /** The message `chat_with_context` adds: the screen image followed by the user's text. */
  function UserTurn(base64Png: string, text: string): Message
  {
    Message("user", [ImageBlock(base64Png), TextBlock(text)])
  }

  /** A caller-owned conversation history (a Python list the caller keeps). */
  class Conversation {
    var messages: seq<Message>

    constructor (messages: seq<Message>)
      ensures this.messages == messages
    {
      this.messages := messages;
    }
  }

  /**
    * `chat_with_context`: a non-empty history is extended in place by exactly one user
    * turn and sent; with no history or an empty one, only the new turn is sent and the
    * caller's list is left as it was. `ask` stands for the planner call.
    */
  method ChatWithContext(base64Png: string, userMessage: string, history: Conversation?,
                         ask: seq<Message> -> string)
    returns (reply: string)
    modifies history
    ensures history != null && old(history.messages) != [] ==>
              history.messages == old(history.messages) + [UserTurn(base64Png, userMessage)]
              && reply == ask(history.messages)
    ensures history != null && old(history.messages) == [] ==>
              history.messages == [] && reply == ask([UserTurn(base64Png, userMessage)])
    ensures history == null ==> reply == ask([UserTurn(base64Png, userMessage)])
  {
    var current := UserTurn(base64Png, userMessage);
    var sent: seq<Message>;
    if history != null && history.messages != [] {
      history.messages := history.messages + [current];
      sent := history.messages;
    } else {
      sent := [current];
    }
    reply := ask(sent);
  }
}
