/**
 * The ticket detail screen: one ticket loaded by its route id, with handlers
 * that change its status or priority and add or delete a comment. Each
 * handler first writes through `updateData` and changes the local ticket
 * only once that write has succeeded.
 */
module Detail {
  import opened Wrappers
  import opened Records
  import Text
  import Store

  /** JavaScript truthiness of a field value; `undefined` is falsy. */
  predicate Truthy(v: Option<Value>)
  {
    match v
    case None => false
    case Some(Str(s)) => s != ""
    case Some(Num(n)) => n != 0
    case Some(List(_)) => true
  }

  /** `[...s]` on a string: one string per character. */
  function Chars(s: string): (r: seq<string>)
    ensures |r| == |s|
    ensures forall i :: 0 <= i < |s| ==> r[i] == [s[i]]
  {
    if s == [] then [] else [[s[0]]] + Chars(s[1..])
  }

  /** `[...v]`: arrays and strings spread; a number is not iterable and throws. */
  function Spread(v: Value): Option<seq<string>>
  {
    match v
    case List(items) => Some(items)
    case Str(s) => Some(Chars(s))
    case Num(_) => None
  }

  /**
   * `ticket.comments ? [...ticket.comments, comment] : [comment]`; None where
   * the spread throws.
   */
  function AppendComment(existing: Option<Value>, c: string): Option<seq<string>>
  {
    if !Truthy(existing) then Some([c])
    else match Spread(existing.value)
      case None => None
      case Some(xs) => Some(xs + [c])
  }

  /**
   * Appending puts the comment, untrimmed, after the old comments, or makes
   * it the only one when there were none; it throws only on a non-zero number.
   */
  lemma AppendCommentSpec(existing: Option<Value>, c: string)
    ensures existing.None? ==> AppendComment(existing, c) == Some([c])
    ensures existing.Some? && existing.value.List? ==> AppendComment(existing, c) == Some(existing.value.items + [c])
    ensures AppendComment(existing, c).None? <==> existing.Some? && existing.value.Num? && existing.value.n != 0
    ensures AppendComment(existing, c).Some? ==>
      var cs := AppendComment(existing, c).value;
      |cs| >= 1 && cs[|cs| - 1] == c
  {
  }

  /** `cs.filter((_, i) => i !== index)`, for the elements of `cs` sitting at positions `offset` onwards. */
  function DropIndex(cs: seq<string>, index: int, offset: int): (r: seq<string>)
    ensures offset <= index < offset + |cs| ==> r == cs[..index - offset] + cs[index - offset + 1..]
    ensures !(offset <= index < offset + |cs|) ==> r == cs
  {
    if cs == [] then []
    else
      var rest := DropIndex(cs[1..], index, offset + 1);
      if offset == index then
        assert rest == cs[1..];
        rest
      else
        assert cs == [cs[0]] + cs[1..];
        assert offset < index < offset + |cs| ==> cs[..index - offset] == [cs[0]] + cs[1..][..index - offset - 1];
        [cs[0]] + rest
  }

  /** The comments without the one at `index`. */
  function RemoveComment(cs: seq<string>, index: int): seq<string>
  {
    DropIndex(cs, index, 0)
  }

  /**
   * An in-range index removes exactly that comment, the others keeping
   * their order; an out-of-range one leaves the list as it was.
   */
  lemma RemoveCommentSpec(cs: seq<string>, index: int)
    ensures 0 <= index < |cs| ==>
      && RemoveComment(cs, index) == cs[..index] + cs[index + 1..]
      && |RemoveComment(cs, index)| == |cs| - 1
    ensures !(0 <= index < |cs|) ==> RemoveComment(cs, index) == cs
  {
  }

  /** The status and priority selectors: the ticket with one field replaced. */
  function WithStatus(t: Record, status: string): (r: Record)
    ensures r.Keys == t.Keys + {StatusField} && r[StatusField] == Str(status)
    ensures forall f :: f in t && f != StatusField ==> r[f] == t[f]
  {
    With(t, StatusField, Str(status))
  }

  function WithPriority(t: Record, priority: string): (r: Record)
    ensures r.Keys == t.Keys + {PriorityField} && r[PriorityField] == Str(priority)
    ensures forall f :: f in t && f != PriorityField ==> r[f] == t[f]
  {
    With(t, PriorityField, Str(priority))
  }

  class DetailView {
    /** The hook's store. */
    const store: Store.RecordStore
    /** `Number(id)` of the route parameter. */
    const id: int
    /** `ticket`; None is `null` or `undefined`. */
    var ticket: Option<Record>
    /** The comment input; the textarea writes it. */
    var comment: string

    ghost predicate Valid()
      reads this, store
    {
      && store.Valid()
      && (ticket.Some? ==> Store.KeyOf(ticket.value) == Some(id))
    }

    /** The local ticket is the one the store holds under `id`. */
    ghost predicate InSync()
      reads this, store
      requires Valid()
    {
      ticket.Some? ==> Store.Lookup(store.records, id) == ticket
    }

    /**
     * `updateData(id, patch)` has succeeded: key `id` held a record and now
     * holds it merged with `patch`; every other key holds what it held.
     */
    ghost predicate Written(before: seq<Record>, after: seq<Record>, patch: Record)
      requires Store.Ordered(before) && Store.Ordered(after)
    {
      && Store.Lookup(before, id).Some?
      && Store.ChangedOnlyAt(before, after, id, Merge(Store.Lookup(before, id).value, patch))
    }

    constructor (store: Store.RecordStore, id: int)
      requires store.Valid()
      ensures Valid()
      ensures this.store == store && this.id == id
      ensures ticket == None && comment == ""
    {
      this.store := store;
      this.id := id;
      ticket := None;
      comment := "";
    }

    /** The effect on mount: once the store is ready, load the ticket, `undefined` when it is absent. */
    method Load()
      requires Valid()
      modifies this`ticket
      ensures Valid()
      ensures !store.ready ==> ticket == old(ticket)
      ensures store.ready ==> ticket == Store.Lookup(store.records, id) && InSync()
    {
      if !store.ready {
        return;
      }
      var item := store.GetDataById(id);
      if item.Ok? {
        ticket := item.value;
      }
    }

    /**
     * `await updateData(Number(id), patch)`, then `setTicket(next)` on success.
     * `next` is the local ticket with the patch applied.
     */
    method Commit(patch: Record, next: Record) returns (ok: bool)
      requires Valid()
      requires IdField !in patch || patch[IdField] == Num(id)
      requires Store.KeyOf(next) == Some(id)
      requires ticket.Some? ==> next == Merge(ticket.value, patch)
      modifies this`ticket, store`records, store`nextKey, store`usedKeys
      ensures Valid()
      ensures old(store.usedKeys) <= store.usedKeys && old(store.nextKey) <= store.nextKey
      ensures ok <==> store.ready && Store.Lookup(old(store.records), id).Some?
      ensures ok ==> ticket == Some(next)
      ensures ok ==> Written(old(store.records), store.records, patch)
      ensures !ok ==> ticket == old(ticket) && unchanged(store)
      ensures old(ticket).Some? && old(InSync()) ==> InSync()
    {
      var r := store.UpdateData(id, patch);
      ok := r.Ok?;
      if ok {
        ticket := Some(next);
      }
    }

    /** `handleStatusChange`: nothing without a ticket; otherwise write the ticket with its new status. */
    method HandleStatusChange(newStatus: string)
      requires Valid()
      modifies this`ticket, store`records, store`nextKey, store`usedKeys
      ensures Valid()
      ensures old(store.usedKeys) <= store.usedKeys && old(store.nextKey) <= store.nextKey
      ensures old(ticket).None? ==> ticket == old(ticket) && unchanged(store)
      ensures old(ticket).Some? && store.ready && Store.Lookup(old(store.records), id).Some? ==>
        && ticket == Some(WithStatus(old(ticket).value, newStatus))
        && Written(old(store.records), store.records, WithStatus(old(ticket).value, newStatus))
      ensures !store.ready || Store.Lookup(old(store.records), id).None? ==> ticket == old(ticket) && unchanged(store)
      ensures ticket != old(ticket) ==> store.ready && Store.Lookup(old(store.records), id).Some?
      ensures old(InSync()) ==> InSync()
    {
      if ticket.None? {
        return;
      }
      var updated := WithStatus(ticket.value, newStatus);
      MergeOverwritingAll(ticket.value, updated);
      var _ := Commit(updated, updated);
    }

    /** `handlePriorityChange`: the same for the priority. */
    method HandlePriorityChange(newPriority: string)
      requires Valid()
      modifies this`ticket, store`records, store`nextKey, store`usedKeys
      ensures Valid()
      ensures old(store.usedKeys) <= store.usedKeys && old(store.nextKey) <= store.nextKey
      ensures old(ticket).None? ==> ticket == old(ticket) && unchanged(store)
      ensures old(ticket).Some? && store.ready && Store.Lookup(old(store.records), id).Some? ==>
        && ticket == Some(WithPriority(old(ticket).value, newPriority))
        && Written(old(store.records), store.records, WithPriority(old(ticket).value, newPriority))
      ensures !store.ready || Store.Lookup(old(store.records), id).None? ==> ticket == old(ticket) && unchanged(store)
      ensures ticket != old(ticket) ==> store.ready && Store.Lookup(old(store.records), id).Some?
      ensures old(InSync()) ==> InSync()
    {
      if ticket.None? {
        return;
      }
      var updated := WithPriority(ticket.value, newPriority);
      MergeOverwritingAll(ticket.value, updated);
      var _ := Commit(updated, updated);
    }

    /**
     * `handleAddComment`: a blank input does nothing; otherwise write the
     * extended comment list, then set it on the ticket and clear the input.
     */
    method HandleAddComment()
      requires Valid()
      modifies this`ticket, this`comment, store`records, store`nextKey, store`usedKeys
      ensures Valid()
      ensures old(store.usedKeys) <= store.usedKeys && old(store.nextKey) <= store.nextKey
      ensures Text.IsBlank(old(comment)) ==> ticket == old(ticket) && comment == old(comment) && unchanged(store)
      ensures old(ticket).None? ==> ticket == old(ticket) && comment == old(comment) && unchanged(store)
      ensures comment != old(comment) ==> comment == ""
      ensures comment == "" && old(comment) != "" ==>
        && old(ticket).Some?
        && AppendComment(Get(old(ticket).value, CommentsField), old(comment)).Some?
        && ticket == Some(With(old(ticket).value, CommentsField, List(AppendComment(Get(old(ticket).value, CommentsField), old(comment)).value)))
      ensures ticket != old(ticket) ==> comment == ""
      ensures (&& !Text.IsBlank(old(comment)) && old(ticket).Some? && store.ready && Store.Lookup(old(store.records), id).Some?
               && AppendComment(Get(old(ticket).value, CommentsField), old(comment)).Some?) ==>
        && comment == "" && ticket != old(ticket)
        && Written(old(store.records), store.records,
             map[CommentsField := List(AppendComment(Get(old(ticket).value, CommentsField), old(comment)).value)])
      ensures !store.ready || Store.Lookup(old(store.records), id).None? ==>
        ticket == old(ticket) && comment == old(comment) && unchanged(store)
      ensures old(ticket).Some? && AppendComment(Get(old(ticket).value, CommentsField), old(comment)).None? ==>
        ticket == old(ticket) && comment == old(comment) && unchanged(store)
      ensures old(InSync()) ==> InSync()
    {
      Text.TrimEmptyIffBlank(comment);
      if Text.Trim(comment) == "" {
        return;
      }
      if ticket.None? {
        return;
      }
      var before := ticket.value;
      var appended := AppendComment(Get(before, CommentsField), comment);
      if appended.None? {
        return;
      }
      var patch := map[CommentsField := List(appended.value)];
      var next := With(before, CommentsField, List(appended.value));
      assert CommentsField != IdField;
      var ok := Commit(patch, next);
      if ok {
        if CommentsField in before {
          AppendLonger(Get(before, CommentsField), comment);
          assert next[CommentsField] != before[CommentsField];
        }
        comment := "";
      }
    }

    /**
     * `handleDeleteComment(index)`: write the comment list without the one
     * at `index`, then set it on the ticket. Without a ticket or a comment
     * list, `filter` throws and nothing happens.
     */
    method HandleDeleteComment(index: int)
      requires Valid()
      modifies this`ticket, store`records, store`nextKey, store`usedKeys
      ensures Valid()
      ensures old(store.usedKeys) <= store.usedKeys && old(store.nextKey) <= store.nextKey
      ensures old(ticket).None? || Get(old(ticket).value, CommentsField).None? || !Get(old(ticket).value, CommentsField).value.List? ==>
        ticket == old(ticket) && unchanged(store)
      ensures (&& old(ticket).Some? && Get(old(ticket).value, CommentsField).Some? && Get(old(ticket).value, CommentsField).value.List?
               && store.ready && Store.Lookup(old(store.records), id).Some?) ==>
        && ticket == Some(With(old(ticket).value, CommentsField,
             List(RemoveComment(old(ticket).value[CommentsField].items, index))))
        && Written(old(store.records), store.records,
             map[CommentsField := List(RemoveComment(old(ticket).value[CommentsField].items, index))])
      ensures !store.ready || Store.Lookup(old(store.records), id).None? ==> ticket == old(ticket) && unchanged(store)
      ensures ticket != old(ticket) ==> store.ready && Store.Lookup(old(store.records), id).Some?
      ensures old(InSync()) ==> InSync()
    {
      if ticket.None? {
        return;
      }
      match Get(ticket.value, CommentsField)
      case Some(List(cs)) =>
        var remaining := RemoveComment(cs, index);
        var patch := map[CommentsField := List(remaining)];
        var next := With(ticket.value, CommentsField, List(remaining));
        assert CommentsField != IdField;
        var _ := Commit(patch, next);
      case _ =>
    }
  }

  lemma AppendLonger(existing: Option<Value>, c: string)
    requires existing.Some? && AppendComment(existing, c).Some?
    ensures List(AppendComment(existing, c).value) != existing.value
  {
    if existing.value.List? && Truthy(existing) {
      assert |AppendComment(existing, c).value| == |existing.value.items| + 1;
    }
  }
}
