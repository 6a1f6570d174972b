/** Toast notifications (components/Toast.tsx): the icon and colour chosen
    for a toast's type, and the queue of toasts that `useToast` keeps. A
    toast's id comes from the clock in the source; here it is a parameter. */
module Toast {
  import opened Options
  import opened Seqs

  /** A toast as queued: its id, message and type (`success`, `error`,
      `warning` or `info`; any other string falls through to `info`). */
  datatype ToastItem = ToastItem(id: string, message: string, kind: string)

  /** `getIcon`. */
  function Icon(kind: string): string
  {
    if kind == "success" then "✓"
    else if kind == "error" then "✕"
    else if kind == "warning" then "⚠"
    else "ℹ"
  }

  /** The colour part of `getToastClasses`. */
  function Colour(kind: string): string
  {
    if kind == "success" then "bg-green-600 border-green-500"
    else if kind == "error" then "bg-red-600 border-red-500"
    else if kind == "warning" then "bg-yellow-600 border-yellow-500"
    else "bg-blue-600 border-blue-500"
  }

  /** The four types, in the order of `getIcon`. */
  const Kinds: seq<string> := ["success", "error", "warning", "info"]

  /** The four types show four different icons. */
  lemma IconsDistinct()
    ensures forall i, j :: 0 <= i < j < 4 ==> Icon(Kinds[i]) != Icon(Kinds[j])
  {
    var icons := ['✓', '✕', '⚠', 'ℹ'];
    assert Icon(Kinds[0])[0] == icons[0] && Icon(Kinds[1])[0] == icons[1];
    assert Icon(Kinds[2])[0] == icons[2] && Icon(Kinds[3])[0] == icons[3];
  }

  /** The four types get four different colours. */
  lemma ColoursDistinct()
    ensures forall i, j :: 0 <= i < j < 4 ==> Colour(Kinds[i]) != Colour(Kinds[j])
  {
    var lengths := [29, 25, 31, 27];
    forall k | 0 <= k < 4
      ensures |Colour(Kinds[k])| == lengths[k]
    {
      if k == 0 {
        assert Colour("success") == "bg-green-600 border-green-500";
      } else if k == 1 {
        assert Colour("error") == "bg-red-600 border-red-500";
      } else if k == 2 {
        assert Colour("warning") == "bg-yellow-600 border-yellow-500";
      } else {
        assert Colour("info") == "bg-blue-600 border-blue-500";
      }
    }
  }

  /** The four types show four different icons and colours, and a type that
      is none of them looks exactly like `info`. */
  lemma TypeStyles(kind: string)
    ensures forall i, j :: 0 <= i < j < 4 ==>
      Icon(Kinds[i]) != Icon(Kinds[j]) && Colour(Kinds[i]) != Colour(Kinds[j])
    ensures kind !in {"success", "error", "warning"} ==> Icon(kind) == Icon("info") && Colour(kind) == Colour("info")
  {
    IconsDistinct();
    ColoursDistinct();
  }

  /** `prev.filter(toast => toast.id !== id)`. */
  function WithoutId(toasts: seq<ToastItem>, id: string): (r: seq<ToastItem>)
    ensures |r| <= |toasts|
  {
    Keep(toasts, (t: ToastItem) => t.id != id)
  }

  /** Removing drops every toast with the id and keeps the others, in order. */
  lemma WithoutIdSpec(toasts: seq<ToastItem>, id: string)
    ensures forall t :: t in WithoutId(toasts, id) ==> t.id != id && t in toasts
    ensures forall t :: t in toasts && t.id != id ==> t in WithoutId(toasts, id)
    ensures IsSubsequence(WithoutId(toasts, id), toasts)
  {
    var p := (t: ToastItem) => t.id != id;
    forall t | t in toasts
      ensures t in Keep(toasts, p) <==> t.id != id
    {
      KeepMember(toasts, p, t);
    }
    KeepIsSubsequence(toasts, p);
  }

  /** Removing a toast just added under a fresh id restores the queue. */
  lemma RemoveUndoesAdd(toasts: seq<ToastItem>, t: ToastItem)
    requires forall u :: u in toasts ==> u.id != t.id
    ensures WithoutId(toasts + [t], t.id) == toasts
  {
    var p := (u: ToastItem) => u.id != t.id;
    KeepSnoc(toasts, t, p);
    KeepAll(toasts, p);
  }

  /** The queue kept by `useToast`. */
  class ToastQueue {
    var toasts: seq<ToastItem>

    constructor ()
      ensures toasts == []
    {
      toasts := [];
    }

    /** `addToast`: the new toast goes at the end; the type defaults to `info`. */
    method AddToast(id: string, message: string, kind: Option<string>)
      modifies this
      ensures toasts == old(toasts) + [ToastItem(id, message, kind.GetOr("info"))]
    {
      toasts := toasts + [ToastItem(id, message, kind.GetOr("info"))];
    }

    /** `removeToast`. */
    method RemoveToast(id: string)
      modifies this
      ensures toasts == WithoutId(old(toasts), id)
    {
      toasts := WithoutId(toasts, id);
    }

    /** The `success` shortcut. */
    method Success(id: string, message: string)
      modifies this
      ensures toasts == old(toasts) + [ToastItem(id, message, "success")]
    {
      AddToast(id, message, Some("success"));
    }

    /** The `error` shortcut. */
    method Error(id: string, message: string)
      modifies this
      ensures toasts == old(toasts) + [ToastItem(id, message, "error")]
    {
      AddToast(id, message, Some("error"));
    }

    /** The `warning` shortcut. */
    method Warning(id: string, message: string)
      modifies this
      ensures toasts == old(toasts) + [ToastItem(id, message, "warning")]
    {
      AddToast(id, message, Some("warning"));
    }

    /** The `info` shortcut. */
    method Info(id: string, message: string)
      modifies this
      ensures toasts == old(toasts) + [ToastItem(id, message, "info")]
    {
      AddToast(id, message, Some("info"));
    }
  }
}
