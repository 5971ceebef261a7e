/**
  The agent-message board of benchmarks/harness/codex_app_server.py: an insertion-ordered
  dictionary from item id to text, fed by interleaved deltas and completions.
 */
module AgentMessages {
  import opened Prelude
  import opened JsonValues

  datatype Effect = Silent | Delta(id: string, text: string) | Completed(id: string, text: string)

  /** What one JSON-RPC message does to the board. */
  function EffectOf(message: Object): Effect {
    var name, params := Get(message, "method"), Get(message, "params");
    if !params.Obj? then Silent
    else if name == Str("item/agentMessage/delta") then
      var id, text := Get(params.fields, "itemId"), Get(params.fields, "delta");
      if id.Str? && text.Str? then Delta(id.s, text.s) else Silent
    else if name == Str("item/completed") then
      var item := Get(params.fields, "item");
      if !item.Obj? || Get(item.fields, "type") != Str("agentMessage") then Silent else
      var id, text := Get(item.fields, "id"), Get(item.fields, "text");
      if id.Str? && text.Str? then Completed(id.s, text.s) else Silent
    else Silent
  }

  /** A delta and a completion as the app-server sends them. */
  function DeltaMessage(id: string, text: string): Object {
    map["method" := Str("item/agentMessage/delta"), "params" := Obj(map["itemId" := Str(id), "delta" := Str(text)])]
  }

  function CompletedMessage(id: string, text: string): Object {
    map["method" := Str("item/completed"), "params" := Obj(map["item" := Obj(map[
      "type" := Str("agentMessage"), "id" := Str(id), "text" := Str(text)])])]
  }

  /** Both are heard as they were meant, and no message with another method is heard at all. */
  lemma MessagesAreHeard(id: string, text: string, other: Object)
    requires Get(other, "method") !in {Str("item/agentMessage/delta"), Str("item/completed")}
    ensures EffectOf(DeltaMessage(id, text)) == Delta(id, text)
    ensures EffectOf(CompletedMessage(id, text)) == Completed(id, text)
    ensures EffectOf(other) == Silent
  {
    var delta, completed := DeltaMessage(id, text), CompletedMessage(id, text);
    assert Get(Get(delta, "params").fields, "itemId") == Str(id) && Get(Get(delta, "params").fields, "delta") == Str(text);
    var item := Get(Get(completed, "params").fields, "item").fields;
    assert Get(item, "type") == Str("agentMessage") && Get(item, "id") == Str(id) && Get(item, "text") == Str(text);
  }

  datatype Entry = Entry(id: string, text: string)

  /** A Python dictionary from id to text, in insertion order. */
  type Board = seq<Entry>

  /** `board.get(id, "")` */
  function TextAt(board: Board, id: string): string {
    if board == [] then ""
    else if board[0].id == id then board[0].text
    else TextAt(board[1..], id)
  }

  /** `board[id] = text`: an existing key keeps its place, a new one goes last. */
  function Put(board: Board, id: string, text: string): Board {
    if board == [] then [Entry(id, text)]
    else if board[0].id == id then [Entry(id, text)] + board[1..]
    else [board[0]] + Put(board[1..], id, text)
  }

  function Hear(board: Board, effect: Effect): Board {
    match effect
    case Silent => board
    case Delta(id, text) => Put(board, id, TextAt(board, id) + text)
    case Completed(id, text) => Put(board, id, text)
  }

  function HearAll(effects: seq<Effect>): Board {
    if effects == [] then [] else Hear(HearAll(Init(effects)), Last(effects))
  }

  // ---------------------------------------------------------------- the same, one message at a time

  predicate Concerns(effect: Effect, id: string) {
    !effect.Silent? && effect.id == id
  }

  /** The text of one item, from its own effects: the last completed text and the deltas after it. */
  function TextOf(effects: seq<Effect>, id: string): string {
    if effects == [] then ""
    else if !Concerns(Last(effects), id) then TextOf(Init(effects), id)
    else if Last(effects).Delta? then TextOf(Init(effects), id) + Last(effects).text
    else Last(effects).text
  }

  /** The ids in the order of their first effect. */
  function FirstSeen(effects: seq<Effect>): seq<string> {
    if effects == [] then [] else
    var front := FirstSeen(Init(effects));
    if Last(effects).Silent? || Last(effects).id in front then front else front + [Last(effects).id]
  }

  /** The board that lists every id in first-seen order with its own text. */
  function Listing(ids: seq<string>, effects: seq<Effect>): Board {
    if ids == [] then [] else [Entry(ids[0], TextOf(effects, ids[0]))] + Listing(ids[1..], effects)
  }

  predicate Distinct(ids: seq<string>) {
    forall i, j :: 0 <= i < j < |ids| ==> ids[i] != ids[j]
  }

  lemma {:induction false} FirstSeenIsDistinct(effects: seq<Effect>)
    ensures Distinct(FirstSeen(effects))
  {
    if effects != [] {
      FirstSeenIsDistinct(Init(effects));
    }
  }

  lemma {:induction false} ListingLookup(ids: seq<string>, effects: seq<Effect>, id: string)
    requires id !in ids ==> TextOf(effects, id) == ""
    ensures TextAt(Listing(ids, effects), id) == TextOf(effects, id)
  {
    hide TextOf;
    if ids != [] && ids[0] != id {
      assert id in ids <==> id in ids[1..];
      ListingLookup(ids[1..], effects, id);
      assert Listing(ids, effects)[1..] == Listing(ids[1..], effects);
    }
  }

  lemma {:induction false} UnseenHasNoText(effects: seq<Effect>, id: string)
    requires id !in FirstSeen(effects)
    ensures TextOf(effects, id) == ""
  {
    if effects != [] {
      UnseenHasNoText(Init(effects), id);
    }
  }

  /** Listing under a longer history differs only in the entry of the new effect's id. */
  lemma {:induction false} ListingPut(ids: seq<string>, before: seq<Effect>, after: seq<Effect>, id: string)
    requires Distinct(ids)
    requires forall other :: other != id ==> TextOf(after, other) == TextOf(before, other)
    ensures Put(Listing(ids, before), id, TextOf(after, id)) == Listing(if id in ids then ids else ids + [id], after)
  {
    hide TextOf;
    if ids == [] {
      assert Listing([id], after)[1..] == Listing([], after);
    } else if ids[0] == id {
      assert id !in ids[1..];
      ListingAgrees(ids[1..], before, after, id);
      assert Listing(ids, before)[1..] == Listing(ids[1..], before);
    } else {
      ListingPut(ids[1..], before, after, id);
      assert id in ids <==> id in ids[1..];
      assert Listing(ids, before)[1..] == Listing(ids[1..], before);
      assert (ids + [id])[1..] == ids[1..] + [id];
    }
  }

  lemma {:induction false} ListingAgrees(ids: seq<string>, before: seq<Effect>, after: seq<Effect>, id: string)
    requires id !in ids
    requires forall other :: other != id ==> TextOf(after, other) == TextOf(before, other)
    ensures Listing(ids, before) == Listing(ids, after)
  {
    hide TextOf;
    if ids != [] {
      ListingAgrees(ids[1..], before, after, id);
    }
  }

  /** The dictionary after any interleaving is the listing of every id with the text of its own effects. */
  lemma {:induction false} BoardIsListing(effects: seq<Effect>)
    ensures HearAll(effects) == Listing(FirstSeen(effects), effects)
  {
    if effects != [] {
      var front, last := Init(effects), Last(effects);
      var ids := FirstSeen(front);
      BoardIsListing(front);
      FirstSeenIsDistinct(front);
      if last.Silent? {
        SilenceKeepsListing(ids, effects);
      } else {
        if last.id !in ids {
          UnseenHasNoText(front, last.id);
        }
        ListingLookup(ids, front, last.id);
        assert forall other :: other != last.id ==> TextOf(effects, other) == TextOf(front, other);
        ListingPut(ids, front, effects, last.id);
      }
    }
  }

  lemma {:induction false} SilenceKeepsListing(ids: seq<string>, effects: seq<Effect>)
    requires effects != [] && Last(effects).Silent?
    ensures Listing(ids, effects) == Listing(ids, Init(effects))
  {
    if ids != [] {
      SilenceKeepsListing(ids[1..], effects);
    }
  }

  lemma {:induction false} LastOfListing(ids: seq<string>, effects: seq<Effect>)
    requires ids != []
    ensures Listing(ids, effects) != [] && Last(Listing(ids, effects)) == Entry(Last(ids), TextOf(effects, Last(ids)))
  {
    hide TextOf;
    if |ids| > 1 {
      LastOfListing(ids[1..], effects);
    }
  }

  // ---------------------------------------------------------------- interleaving

  /** The effects on one item, in order. */
  function EffectsOn(effects: seq<Effect>, id: string): seq<Effect> {
    if effects == [] then []
    else if Concerns(Last(effects), id) then EffectsOn(Init(effects), id) + [Last(effects)]
    else EffectsOn(Init(effects), id)
  }

  /** The text of an item depends on its own effects only, however they are interleaved with others. */
  lemma {:induction false} TextIgnoresOthers(effects: seq<Effect>, id: string)
    ensures TextOf(EffectsOn(effects, id), id) == TextOf(effects, id)
  {
    if effects != [] {
      TextIgnoresOthers(Init(effects), id);
      if Concerns(Last(effects), id) {
        assert Init(EffectsOn(effects, id)) == EffectsOn(Init(effects), id);
      }
    }
  }

  /** Position of the first effect on an item, or the length of the stream. */
  function FirstIndex(effects: seq<Effect>, id: string): nat {
    if effects == [] then 0 else
    var front := FirstIndex(Init(effects), id);
    if front < |effects| - 1 then front else if Concerns(Last(effects), id) then |effects| - 1 else |effects|
  }

  lemma {:induction false} FirstIndexBound(effects: seq<Effect>, id: string)
    ensures FirstIndex(effects, id) <= |effects|
    ensures FirstIndex(effects, id) < |effects| <==> id in FirstSeen(effects)
    ensures FirstIndex(effects, id) < |effects| ==> Concerns(effects[FirstIndex(effects, id)], id)
    ensures forall i :: 0 <= i < FirstIndex(effects, id) ==> !Concerns(effects[i], id)
  {
    if effects != [] {
      FirstIndexBound(Init(effects), id);
    }
  }

  /** The last id listed is the one whose first effect comes latest. */
  lemma {:induction false} LastListedCameLast(effects: seq<Effect>, id: string)
    requires id in FirstSeen(effects) && id != Last(FirstSeen(effects))
    ensures FirstIndex(effects, id) < FirstIndex(effects, Last(FirstSeen(effects)))
  {
    var front, ids := Init(effects), FirstSeen(Init(effects));
    var latest := Last(FirstSeen(effects));
    FirstIndexBound(front, id);
    FirstIndexBound(front, latest);
    if FirstSeen(effects) == ids {
      LastListedCameLast(front, id);
    }
  }

  /** All deltas of an item, concatenated. */
  function AllDeltas(effects: seq<Effect>, id: string): string {
    if effects == [] then ""
    else if Last(effects).Delta? && Last(effects).id == id then AllDeltas(Init(effects), id) + Last(effects).text
    else AllDeltas(Init(effects), id)
  }

  /** Every completed text equals the deltas of its item so far. */
  ghost predicate Faithful(effects: seq<Effect>) {
    forall i :: 0 <= i < |effects| && effects[i].Completed? ==> effects[i].text == AllDeltas(effects[..i], effects[i].id)
  }

  /** With faithful completions the text of an item is all of its deltas. */
  lemma {:induction false} FaithfulText(effects: seq<Effect>, id: string)
    requires Faithful(effects)
    ensures TextOf(effects, id) == AllDeltas(effects, id)
  {
    if effects != [] {
      var front := Init(effects);
      forall i | 0 <= i < |front| && front[i].Completed?
        ensures front[i].text == AllDeltas(front[..i], front[i].id)
      {
        assert front[..i] == effects[..i] && front[i] == effects[i];
      }
      FaithfulText(front, id);
      assert effects[..|effects| - 1] == front;
    }
  }
}
