/** The default Slack rendering: one attachment per item, up to Slack's limit. */
module Render {
  import opened Domain
  import Build

  const MAX_ATTACHMENTS := 100

  /** An attachment as far as it matters here: the item it shows, or the "+N more" line. */
  datatype Attachment = ForItem(item: Item) | More(overflow: nat)

  /** The triggers that have a renderer. */
  predicate HasRenderer(trigger: string) {
    match trigger
    case "on-created" => true
    case "on-deleted" => true
    case "on-deployed" => true
    case "on-health-degraded" => true
    case "on-sync-failed" => true
    case "on-sync-running" => true
    case "on-sync-status-unknown" => true
    case "on-sync-succeeded" => true
    case _ => false
  }

  /** The items that have a renderer, in order. */
  function Renderable(items: seq<Item>): seq<Item> {
    if items == [] then [] else
      Renderable(items[..|items| - 1]) + (if HasRenderer(items[|items| - 1].trigger) then [items[|items| - 1]] else [])
  }

  /** What two lists show is what the first shows, then what the second shows. */
  lemma {:induction false} RenderableAppend(a: seq<Item>, b: seq<Item>)
    ensures Renderable(a + b) == Renderable(a) + Renderable(b)
  {
    hide HasRenderer, Build.Known;
    if b == [] {
      assert a + b == a;
    } else {
      hide Renderable;
      var init, last := b[..|b| - 1], b[|b| - 1];
      RenderableAppend(a, init);
      RenderableSnoc(a + init, last);
      RenderableSnoc(init, last);
      Regroup(a, init, [last], b);
      Regroup(Renderable(a), Renderable(init), if HasRenderer(last.trigger) then [last] else [], Renderable(b));
    }
  }

  lemma Regroup(x: seq<Item>, y: seq<Item>, z: seq<Item>, yz: seq<Item>)
    requires yz == y + z
    ensures x + yz == x + y + z
  {
  }

  lemma RenderableSnoc(items: seq<Item>, last: Item)
    ensures Renderable(items + [last]) == Renderable(items) + (if HasRenderer(last.trigger) then [last] else [])
  {
    hide HasRenderer;
    assert (items + [last])[..|items|] == items;
  }

  /** An item is shown exactly if its trigger is known. */
  lemma OneRenderable(item: Item)
    ensures Renderable([item]) == if Build.Known(item.trigger) then [item] else []
  {
    TablesAgree(item.trigger);
    hide HasRenderer, Build.Known;
    assert [item][..0] == [];
  }

  /** The number of items a list of attachments accounts for. */
  function Accounted(attachments: seq<Attachment>): nat {
    if attachments == [] then 0 else
      Accounted(attachments[..|attachments| - 1])
      + match attachments[|attachments| - 1] case ForItem(_) => 1 case More(overflow) => overflow
  }

  ghost predicate ShowsFirst(attachments: seq<Attachment>, items: seq<Item>, k: nat) {
    k <= |attachments| && k <= |items| && forall i :: 0 <= i < k ==> attachments[i] == ForItem(items[i])
  }

  lemma {:induction false} AccountedShown(attachments: seq<Attachment>, items: seq<Item>, k: nat)
    requires ShowsFirst(attachments, items, k)
    ensures Accounted(attachments[..k]) == k
  {
    if k > 0 {
      AccountedShown(attachments, items, k - 1);
      assert attachments[..k][..k - 1] == attachments[..k - 1];
    }
  }

  /** All but one place show items; the last counts the rest. */
  ghost predicate Overflows(attachments: seq<Attachment>, items: seq<Item>) {
    && |attachments| == MAX_ATTACHMENTS && ShowsFirst(attachments, items, MAX_ATTACHMENTS - 1)
    && |items| >= MAX_ATTACHMENTS && attachments[MAX_ATTACHMENTS - 1] == More(|items| - (MAX_ATTACHMENTS - 1))
  }

  /** The message: at most 100 attachments, the first items in order, and a count for
      exactly those that do not fit; nothing else is dropped. */
  method RenderNotification(n: Notification) returns (text: string, attachments: seq<Attachment>)
    ensures text == n.summary
    ensures |attachments| <= 100
    ensures var items := Renderable(n.items);
      && Accounted(attachments) == |items|
      && (|items| <= 100 ==> |attachments| == |items| && ShowsFirst(attachments, items, |items|))
      && (|items| > 100 ==> Overflows(attachments, items))
  {
    attachments := [];
    ghost var items := Renderable(n.items);
    for i := 0 to |n.items|
      invariant |attachments| == |Renderable(n.items[..i])|
      invariant ShowsFirst(attachments, Renderable(n.items[..i]), |attachments|)
    {
      hide HasRenderer;
      assert n.items[..i + 1][..i] == n.items[..i];
      var item := n.items[i];
      if !HasRenderer(item.trigger) {
        continue;
      }
      attachments := attachments + [ForItem(item)];
    }
    assert n.items[..|n.items|] == n.items;
    text := n.summary;
    AccountedShown(attachments, items, |items|);
    assert attachments[..|items|] == attachments;
    if |attachments| > MAX_ATTACHMENTS {
      var overflow := |attachments| - (MAX_ATTACHMENTS - 1);
      AccountedShown(attachments, items, MAX_ATTACHMENTS - 1);
      ghost var kept := attachments[..MAX_ATTACHMENTS - 1];
      attachments := attachments[..MAX_ATTACHMENTS - 1] + [More(overflow)];
      assert attachments[..|attachments| - 1] == kept;
    }
  }

  /** Every trigger that has an item builder has a renderer and the other way round, so
      nothing that `Build` produces is dropped. */
  lemma TablesAgree(trigger: string)
    ensures HasRenderer(trigger) <==> Build.Known(trigger)
  {
  }

  lemma {:induction false} NothingIsDropped(items: seq<Item>)
    ensures Renderable(items) == items <==> forall i :: 0 <= i < |items| ==> Build.Known(items[i].trigger)
    ensures |Renderable(items)| <= |items|
  {
    if items == [] {
    } else {
      var init, last := items[..|items| - 1], items[|items| - 1];
      NothingIsDropped(init);
      TablesAgree(last.trigger);
      hide HasRenderer, Build.Known;
      assert items == init + [last];
      if Renderable(items) == items {
        assert HasRenderer(last.trigger);
        assert Renderable(init) == init;
      }
    }
  }
}
