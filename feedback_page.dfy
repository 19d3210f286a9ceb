/**
 * The feedback page's client state: the per-row action states
 * (`id -> action -> state`), the list updates after a successful request,
 * the guard on sending a reply, the fetch that sorts the list and fills the
 * reply inputs, and the status badge.
 */
module FeedbackPage {

  import opened Wrappers
  import opened Text
  import opened Schema
  import opened Lists
  import opened FeedbackModel

  datatype Action = StatusAction | ReplyAction | DeleteAction

  datatype ActionState = Loading | Failed

  /** `actionStates`: for each feedback id, the actions in progress or failed. */
  type ActionStates = map<string, map<Action, ActionState>>

  /** No id is kept with no actions; every state the page builds is of this kind. */
  predicate NoEmptyRows(states: ActionStates) {
    forall id :: id in states ==> states[id] != map[]
  }

  /** The actions of `id`, empty when it has none. */
  function Row(states: ActionStates, id: string): map<Action, ActionState> {
    if id in states then states[id] else map[]
  }

  /** `setActionState`: only `[id][action]` changes. */
  function SetActionState(states: ActionStates, id: string, action: Action, state: ActionState): (r: ActionStates)
    ensures id in r && Row(r, id) == Row(states, id)[action := state]
    ensures forall other :: other != id ==> Row(r, other) == Row(states, other) && (other in r <==> other in states)
    ensures NoEmptyRows(states) ==> NoEmptyRows(r)
  {
    var row := Row(states, id)[action := state];
    assert action in row;
    states[id := row]
  }

  /**
   * What clearing `action` of `id` should leave, stated entry by entry: `id`
   * loses `action` and disappears when nothing else is left; other ids keep theirs.
   */
  function Cleared(states: ActionStates, id: string, action: Action): ActionStates {
    map k | k in states && (k != id || !(states[k].Keys <= {action})) ::
      if k == id then states[k] - {action} else states[k]
  }

  /** A row loses its last action exactly when it held no other. */
  lemma RemoveLast(row: map<Action, ActionState>, action: Action)
    ensures row - {action} == map[] <==> row.Keys <= {action}
  {
    var rest := row - {action};
    assert rest.Keys == row.Keys - {action};
    if rest.Keys == {} {
      assert rest == map[];
    }
    if row.Keys <= {action} {
      assert rest.Keys == {};
    }
  }

  /** Cleared is the copy-and-delete of `clearActionState`. */
  lemma ClearedByDeletion(states: ActionStates, id: string, action: Action)
    ensures Cleared(states, id, action) ==
      (if Row(states, id) - {action} == map[] then states - {id} else states[id := Row(states, id) - {action}])
  {
    var r := Cleared(states, id, action);
    var rest := Row(states, id) - {action};
    var e := if rest == map[] then states - {id} else states[id := rest];
    RemoveLast(Row(states, id), action);
    assert r.Keys == e.Keys;
    forall k | k in r ensures r[k] == e[k] {
    }
  }

  /** `clearActionState`, with its copies and its two `delete`s. */
  method ClearActionState(prev: ActionStates, id: string, action: Action) returns (next: ActionStates)
    ensures next == Cleared(prev, id, action)
  {
    var currentActions := Row(prev, id);
    currentActions := currentActions - {action};
    if |currentActions| == 0 {
      var newState := prev;
      newState := newState - {id};
      next := newState;
    } else {
      next := prev[id := currentActions];
    }
    ClearedByDeletion(prev, id, action);
  }

  /** The entries of Cleared: `id` loses `action`, every other id keeps its row. */
  lemma ClearedEntries(states: ActionStates, id: string, action: Action)
    ensures Row(Cleared(states, id, action), id) == Row(states, id) - {action}
    ensures id in Cleared(states, id, action) <==> !(Row(states, id).Keys <= {action})
    ensures forall other :: other != id ==>
      Row(Cleared(states, id, action), other) == Row(states, other) &&
      (other in Cleared(states, id, action) <==> other in states)
    ensures NoEmptyRows(states) ==> NoEmptyRows(Cleared(states, id, action))
  {
    ClearedByDeletion(states, id, action);
    RemoveLast(Row(states, id), action);
  }

  /** Clearing an action twice is clearing it once. */
  lemma ClearIdempotent(states: ActionStates, id: string, action: Action)
    ensures Cleared(Cleared(states, id, action), id, action) == Cleared(states, id, action)
  {
    var once := Cleared(states, id, action);
    ClearedEntries(states, id, action);
    ClearedByDeletion(once, id, action);
    RemoveLast(Row(once, id), action);
    assert Row(once, id) - {action} == Row(once, id);
  }

  /** Clearing an action `id` does not have changes nothing, when no row is empty. */
  lemma ClearAbsent(states: ActionStates, id: string, action: Action)
    requires NoEmptyRows(states)
    requires action !in Row(states, id)
    ensures Cleared(states, id, action) == states
  {
    ClearedByDeletion(states, id, action);
    assert Row(states, id) - {action} == Row(states, id);
  }

  /** Marking an action loading and then clearing it, as a finished request does, restores the state. */
  lemma SetThenClear(states: ActionStates, id: string, action: Action, state: ActionState)
    requires NoEmptyRows(states)
    requires action !in Row(states, id)
    ensures Cleared(SetActionState(states, id, action, state), id, action) == states
  {
    var marked := SetActionState(states, id, action, state);
    ClearedByDeletion(marked, id, action);
    assert Row(marked, id) - {action} == Row(states, id);
  }

  // ---------------------------------------------------------------------------
  // list updates after a successful request

  /** `prev.map(f => f._id === id ? { ...f, status } : f)`. */
  function UpdateStatus(list: seq<Feedback>, id: string, status: string): (r: seq<Feedback>)
    ensures |r| == |list|
    ensures forall i :: 0 <= i < |list| && list[i].id == id ==> r[i] == list[i].(status := status)
    ensures forall i :: 0 <= i < |list| && list[i].id != id ==> r[i] == list[i]
  {
    seq(|list|, i requires 0 <= i < |list| => if list[i].id == id then list[i].(status := status) else list[i])
  }

  /** Setting the same status twice is setting it once. */
  lemma UpdateStatusIdempotent(list: seq<Feedback>, id: string, status: string)
    ensures UpdateStatus(UpdateStatus(list, id, status), id, status) == UpdateStatus(list, id, status)
  {
  }

  function HasOtherId(id: string): Feedback -> bool {
    (f: Feedback) => f.id != id
  }

  /** `prev.filter(f => f._id !== id)`: the records with that id go; the rest keep their order. */
  function DeleteById(list: seq<Feedback>, id: string): (r: seq<Feedback>)
    ensures forall i :: 0 <= i < |r| ==> r[i].id != id
    ensures forall f: Feedback :: f.id != id ==> multiset(r)[f] == multiset(list)[f]
    ensures (forall i :: 0 <= i < |list| ==> list[i].id != id) ==> r == list
  {
    FilterMultisetAll(list, HasOtherId(id));
    if forall i :: 0 <= i < |list| ==> list[i].id != id then
      FilterAll(list, HasOtherId(id));
      Filter(list, HasOtherId(id))
    else Filter(list, HasOtherId(id))
  }

  /** Deleting keeps order: what survives of a front part stays in front. */
  lemma DeleteKeepsOrder(front: seq<Feedback>, back: seq<Feedback>, id: string)
    ensures DeleteById(front + back, id) == DeleteById(front, id) + DeleteById(back, id)
  {
    FilterAppend(front, back, HasOtherId(id));
  }

  lemma {:induction false} DeleteAfterUpdate(list: seq<Feedback>, id: string, status: string)
    ensures DeleteById(UpdateStatus(list, id, status), id) == DeleteById(list, id)
  {
    if list != [] {
      var updated := UpdateStatus(list, id, status);
      assert updated[1..] == UpdateStatus(list[1..], id, status);
      DeleteAfterUpdate(list[1..], id, status);
    }
  }

  // ---------------------------------------------------------------------------
  // replies

  /** `replyInputs`: the text in each row's reply box. */
  type ReplyInputs = map<string, string>

  /**
   * `handleAddReply`'s guard: the trimmed reply is sent only when it is
   * non-empty and no reply for `id` is already loading.
   */
  function ReplyToSend(inputs: ReplyInputs, states: ActionStates, id: string): (r: Option<string>)
    ensures r.Some? <==> id in inputs && Trim(inputs[id]) != "" && !(ReplyAction in Row(states, id) && Row(states, id)[ReplyAction] == Loading)
    ensures r.Some? ==> r.value == Trim(inputs[id]) && IsTrimmed(r.value)
  {
    if id !in inputs then None
    else
      var reply := Trim(inputs[id]);
      if reply == "" || (ReplyAction in Row(states, id) && Row(states, id)[ReplyAction] == Loading) then None
      else Some(reply)
  }

  /** `handleReplyChange`: only the reply box of `id` changes. */
  function ChangeReply(inputs: ReplyInputs, id: string, value: string): (r: ReplyInputs)
    ensures id in r && r[id] == value
    ensures forall other :: other != id ==> (other in r <==> other in inputs) && (other in r ==> r[other] == inputs[other])
  {
    inputs[id := value]
  }

  /** After a saved reply: the record takes the saved reply and time, and its box shows the saved text. */
  function ApplyReply(list: seq<Feedback>, inputs: ReplyInputs, id: string, saved: string, repliedAt: int)
    : (r: (seq<Feedback>, ReplyInputs))
    ensures |r.0| == |list|
    ensures forall i :: 0 <= i < |list| && list[i].id == id ==>
      r.0[i] == list[i].(reply := Some(saved), repliedAt := Some(repliedAt))
    ensures forall i :: 0 <= i < |list| && list[i].id != id ==> r.0[i] == list[i]
    ensures id in r.1 && r.1[id] == saved
    ensures forall other :: other != id ==> (other in r.1 <==> other in inputs) && (other in r.1 ==> r.1[other] == inputs[other])
  {
    var updated := seq(|list|, i requires 0 <= i < |list| =>
      if list[i].id == id then list[i].(reply := Some(saved), repliedAt := Some(repliedAt)) else list[i]);
    (updated, inputs[id := saved])
  }

  // ---------------------------------------------------------------------------
  // fetchFeedback

  /** `feedback.reply || ""`. */
  function ReplyText(f: Feedback): string {
    OrEmpty(f.reply)
  }

  /** The ids occurring in a list. */
  function Ids(list: seq<Feedback>): set<string> {
    set i | 0 <= i < |list| :: list[i].id
  }

  /** Reordering a list keeps its ids. */
  lemma IdsOfPermutation(a: seq<Feedback>, b: seq<Feedback>)
    requires multiset(a) == multiset(b)
    ensures Ids(a) == Ids(b)
  {
    forall x | x in Ids(a) ensures x in Ids(b) {
      var i :| 0 <= i < |a| && a[i].id == x;
      assert a[i] in multiset(b);
      var k :| 0 <= k < |b| && b[k] == a[i];
    }
    forall x | x in Ids(b) ensures x in Ids(a) {
      var i :| 0 <= i < |b| && b[i].id == x;
      assert b[i] in multiset(a);
      var k :| 0 <= k < |a| && a[k] == b[i];
    }
  }

  /** Record `i` is the last one carrying its id. */
  predicate LastWithId(list: seq<Feedback>, i: int)
    requires 0 <= i < |list|
  {
    forall k :: i < k < |list| ==> list[k].id != list[i].id
  }

  /** The reply boxes the forEach of `fetchFeedback` fills, one record after the other. */
  function RepliesOf(list: seq<Feedback>): ReplyInputs {
    if list == [] then map[]
    else RepliesOf(list[..|list| - 1])[list[|list| - 1].id := ReplyText(list[|list| - 1])]
  }

  /** Every id gets a box, holding the reply of the last record carrying it. */
  lemma {:induction false} RepliesOfLast(list: seq<Feedback>)
    ensures RepliesOf(list).Keys == Ids(list)
    ensures forall i :: 0 <= i < |list| && LastWithId(list, i) ==> RepliesOf(list)[list[i].id] == ReplyText(list[i])
  {
    if list != [] {
      var front := list[..|list| - 1];
      RepliesOfLast(front);
      assert list == front + [list[|list| - 1]];
      assert Ids(list) == Ids(front) + {list[|list| - 1].id};
      forall i | 0 <= i < |list| && LastWithId(list, i)
        ensures RepliesOf(list)[list[i].id] == ReplyText(list[i])
      {
        if i < |list| - 1 {
          assert LastWithId(front, i);
        }
      }
    }
  }

  /** The forEach of `fetchFeedback`: each id's box starts with the reply of the last record carrying it. */
  method InitialReplies(list: seq<Feedback>) returns (replies: ReplyInputs)
    ensures replies.Keys == Ids(list)
    ensures forall i :: 0 <= i < |list| && LastWithId(list, i) ==> replies[list[i].id] == ReplyText(list[i])
  {
    replies := map[];
    for j := 0 to |list|
      invariant replies == RepliesOf(list[..j])
    {
      assert list[..j + 1][..j] == list[..j];
      replies := replies[list[j].id := ReplyText(list[j])];
    }
    assert list[..|list|] == list;
    RepliesOfLast(list);
  }

  /** With unique ids, as the store issues them, every box shows its own record's reply. */
  lemma UniqueIdsOwnReply(list: seq<Feedback>, replies: ReplyInputs)
    requires forall i, j :: 0 <= i < j < |list| ==> list[i].id != list[j].id
    requires replies.Keys == Ids(list)
    requires forall i :: 0 <= i < |list| && LastWithId(list, i) ==> replies[list[i].id] == ReplyText(list[i])
    ensures forall i :: 0 <= i < |list| ==> replies[list[i].id] == ReplyText(list[i])
  {
    forall i | 0 <= i < |list| ensures replies[list[i].id] == ReplyText(list[i]) {
      assert LastWithId(list, i);
    }
  }

  /**
   * What the request of `fetchFeedback` ends in: the records, a reply that is
   * not `ok` (with its status code), or an exception (the network, a body that
   * is not JSON, data that is not an array) with its message.
   */
  datatype FetchOutcome = Fetched(data: seq<Feedback>) | NotOk(status: int) | Threw(message: string)

  /** `setError(err.message || "Could not load feedback.")` for the error the request ended in. */
  function FetchError(outcome: FetchOutcome): (e: Option<string>)
    ensures e.None? <==> outcome.Fetched?
    ensures e.Some? ==> e.value != ""
  {
    match outcome
    case Fetched(_) => None
    case NotOk(status) => Some("Failed to fetch feedback (" + IntStr(status) + ")")
    case Threw(message) => Some(if message != "" then message else "Could not load feedback.")
  }

  /**
   * `fetchFeedback`: the action states are reset and the error cleared. On
   * success the list is the data newest first and the reply boxes are filled;
   * on failure the error is shown, the list emptied and the boxes left as they were.
   */
  method FetchFeedback(outcome: FetchOutcome, previousReplies: ReplyInputs)
    returns (list: seq<Feedback>, replies: ReplyInputs, states: ActionStates, error: Option<string>)
    ensures states == map[]
    ensures error == FetchError(outcome)
    ensures !outcome.Fetched? ==> list == [] && replies == previousReplies
    ensures outcome.Fetched? ==> var data := outcome.data;
      && multiset(list) == multiset(data)
      && SortedDesc(list, CreatedAt)
      && list == SortDesc(data, CreatedAt)
      && Ids(list) == Ids(data) && replies.Keys == Ids(data)
      && forall i :: 0 <= i < |list| && LastWithId(list, i) ==> replies[list[i].id] == ReplyText(list[i])
  {
    states := map[];
    error := None;
    if !outcome.Fetched? {
      error := FetchError(outcome);
      list, replies := [], previousReplies;
      return;
    }
    var data := outcome.data;
    list := SortDesc(data, CreatedAt);
    SortDescSorted(data, CreatedAt);
    replies := InitialReplies(list);
    IdsOfPermutation(list, data);
  }

  // ---------------------------------------------------------------------------
  // StatusBadge

  /**
   * The badge a row shows; `BadgeFails` is a render that throws, because the
   * looked-up entry has no `icon` to render.
   */
  datatype Badge = PendingBadge | ApprovedBadge | RejectedBadge | BadgeFails

  /**
   * The property names a plain object literal inherits from `Object.prototype`:
   * `statusConfig[status]` finds a function or an object under each of them.
   */
  const InheritedKeys: set<string> := {
    "constructor", "__proto__", "hasOwnProperty", "isPrototypeOf", "propertyIsEnumerable",
    "toLocaleString", "toString", "valueOf",
    "__defineGetter__", "__defineSetter__", "__lookupGetter__", "__lookupSetter__"
  }

  /**
   * `statusConfig[status] || statusConfig.pending`: an unknown status shows as
   * pending, except a name inherited from `Object.prototype`, whose truthy
   * entry is taken and whose missing `icon` makes the render throw.
   */
  function BadgeFor(status: string): (b: Badge)
    ensures b == ApprovedBadge <==> status == Approved
    ensures b == RejectedBadge <==> status == Rejected
    ensures b == BadgeFails <==> status in InheritedKeys
    ensures b == PendingBadge <==> status != Approved && status != Rejected && status !in InheritedKeys
  {
    if status == Approved then ApprovedBadge
    else if status == Rejected then RejectedBadge
    else if status in InheritedKeys then BadgeFails
    else PendingBadge
  }

  /** A record that passed the schema always renders a badge, and the one its status names. */
  lemma ValidStatusRenders(f: Feedback)
    requires FeedbackValid(f)
    ensures BadgeFor(f.status) != BadgeFails
    ensures BadgeFor(f.status) == PendingBadge <==> f.status == Pending
  {
  }
}
