/**
 The ticket registry `ticket_keys.json`: a list of JSON objects written by stage 1 and read back
 by stages 2 and 3 through `read_ticket_keys`, which accepts the list only if every entry has a
 `key`, a `summary` and a `type`, and otherwise (or when the file cannot be read) yields an
 empty list. A field absent from an object is `None` here.
 */
module Registry {
  import opened Wrappers

  datatype Ticket = Ticket(
    key: Option<string>,
    summary: Option<string>,
    issueType: Option<string>,
    parentKey: Option<string>,
    description: Option<string>,
    criteria: Option<seq<string>>)

  /** `all(key in ticket for key in ['key', 'summary', 'type'])`. */
  predicate HasRequired(t: Ticket) {
    t.key.Some? && t.summary.Some? && t.issueType.Some?
  }

  predicate AllComplete(ts: seq<Ticket>) {
    forall i :: 0 <= i < |ts| ==> HasRequired(ts[i])
  }

  /** What `read_ticket_keys` returns for the decoded file contents (`None`: the file is missing
      or is not JSON): the list itself when it is complete, nothing at all otherwise. */
  function Validated(loaded: Option<seq<Ticket>>): (r: seq<Ticket>)
    ensures AllComplete(r)
    ensures r == [] || (loaded.Some? && r == loaded.value)
    ensures loaded.Some? && AllComplete(loaded.value) ==> r == loaded.value
  {
    if loaded.Some? && AllComplete(loaded.value) then loaded.value else []
  }

  /** The validation loop as the code runs it: the first incomplete entry aborts the read. */
  method ReadTicketKeys(loaded: Option<seq<Ticket>>) returns (r: seq<Ticket>)
    ensures r == Validated(loaded)
    ensures loaded.Some? && (exists i :: 0 <= i < |loaded.value| && !HasRequired(loaded.value[i])) ==> r == []
  {
    if loaded.None? {
      return [];
    }
    var tickets := loaded.value;
    var i := 0;
    while i < |tickets|
      invariant 0 <= i <= |tickets|
      invariant forall j :: 0 <= j < i ==> HasRequired(tickets[j])
    {
      if !HasRequired(tickets[i]) {
        return [];
      }
      i := i + 1;
    }
    r := tickets;
  }

  /** Reading a registry that was already accepted accepts it again, unchanged. */
  lemma ValidatedIdempotent(loaded: Option<seq<Ticket>>)
    ensures Validated(Some(Validated(loaded))) == Validated(loaded)
  {
  }

  /** One incomplete entry anywhere empties the whole registry. */
  lemma OneBadEntryEmptiesAll(good: seq<Ticket>, bad: Ticket, more: seq<Ticket>)
    requires !HasRequired(bad)
    ensures Validated(Some(good + [bad] + more)) == []
  {
    assert (good + [bad] + more)[|good|] == bad;
  }
}
