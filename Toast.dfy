/** Notifications (src/components/Toast.js): a list of toasts with ids,
    added by the typed helpers and removed by id, each styled by its type
    with "info" as the fallback. */
module Toast {
  import opened Common
  import opened Seqs

  datatype Toast = Toast(id: real, message: string, kind: string)

  /** The four types the style table knows. */
  predicate KnownKind(kind: string) {
    kind == "success" || kind == "error" || kind == "warning" || kind == "info"
  }

  /** The type a toast is stored with: an omitted type is "info". */
  function KindOrDefault(kind: Option<string>): string {
    if kind.None? then "info" else kind.value
  }

  /** The CSS class of a toast: its type's, or the info one for a type the
      table does not know. */
  function ClassNameOf(kind: string): (c: string)
    ensures KnownKind(kind) ==> c == "toast-" + kind
    ensures !KnownKind(kind) ==> c == "toast-info"
  {
    if KnownKind(kind) then "toast-" + kind else "toast-info"
  }

  function OtherToast(id: real): Toast -> bool {
    (t: Toast) => t.id != id
  }

  /** The list after `removeToast(id)`. */
  function WithoutToast(toasts: seq<Toast>, id: real): seq<Toast> {
    Filter(toasts, OtherToast(id))
  }

  predicate IdIn(toasts: seq<Toast>, id: real) {
    exists i :: 0 <= i < |toasts| && toasts[i].id == id
  }

  /** Removing a toast that was just added with a fresh id gives back the
      list from before. */
  lemma RemoveUndoesAdd(toasts: seq<Toast>, t: Toast)
    requires !IdIn(toasts, t.id)
    ensures WithoutToast(toasts + [t], t.id) == toasts
  {
    FilterSnoc(toasts, t, OtherToast(t.id));
    FilterKeepsAll(toasts, OtherToast(t.id));
  }

  /** Removal takes out exactly the toasts with that id, keeps the others in
      order (removing from a split list removes from each part), leaves a
      list without that id as it was, and a second removal changes nothing. */
  lemma RemoveProperties(toasts: seq<Toast>, id: real, front: seq<Toast>, back: seq<Toast>)
    ensures !IdIn(WithoutToast(toasts, id), id)
    ensures forall i :: 0 <= i < |toasts| && toasts[i].id != id ==> toasts[i] in WithoutToast(toasts, id)
    ensures toasts == front + back ==>
              WithoutToast(toasts, id) == WithoutToast(front, id) + WithoutToast(back, id)
    ensures !IdIn(toasts, id) ==> WithoutToast(toasts, id) == toasts
    ensures WithoutToast(WithoutToast(toasts, id), id) == WithoutToast(toasts, id)
  {
    FilterIdempotent(toasts, OtherToast(id));
    FilterAppend(front, back, OtherToast(id));
    if !IdIn(toasts, id) {
      FilterKeepsAll(toasts, OtherToast(id));
    }
  }

  class ToastProvider {
    var toasts: seq<Toast>

    constructor ()
      ensures toasts == []
    {
      toasts := [];
    }

    /** `addToast`; `now` is `Date.now()` and `draw` is `Math.random()`. */
    method AddToast(message: string, kind: Option<string>, now: real, draw: real) returns (id: real)
      requires 0.0 <= draw < 1.0
      modifies this
      ensures id == now + draw
      ensures toasts == old(toasts) + [Toast(id, message, KindOrDefault(kind))]
    {
      id := now + draw;
      toasts := toasts + [Toast(id, message, KindOrDefault(kind))];
    }

    /** `removeToast`, called by a toast's close button or its 4-second
        timer. */
    method RemoveToast(id: real)
      modifies this
      ensures toasts == WithoutToast(old(toasts), id)
    {
      toasts := WithoutToast(toasts, id);
    }

    /** The typed helpers `toast.success` … `toast.info`. */
    method Typed(kind: string, message: string, now: real, draw: real) returns (id: real)
      requires KnownKind(kind) && 0.0 <= draw < 1.0
      modifies this
      ensures id == now + draw
      ensures toasts == old(toasts) + [Toast(id, message, kind)]
      ensures ClassNameOf(toasts[|toasts| - 1].kind) == "toast-" + kind
    {
      id := AddToast(message, Some(kind), now, draw);
    }

    /** The container renders nothing while the list is empty. */
    function ContainerShown(): (shown: bool)
      reads this
      ensures shown <==> toasts != []
    {
      |toasts| != 0
    }
  }
}
