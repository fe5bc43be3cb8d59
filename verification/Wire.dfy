/** The notification as it crosses the wire: every optional field is absent when the
    domain's field is empty. */
module Wire {
  import opened Domain

  datatype WireItem = WireItem(
    appName: string,
    cluster: string,
    trigger: string,
    commitSHA: Option<string> := None,
    commitURL: Option<string> := None,
    targetRevision: Option<string> := None,
    detailText: Option<string> := None,
    link: Option<string> := None,
    triggeredBy: Option<string> := None,
    images: Option<seq<string>> := None,
    fields: Option<seq<Field>> := None)

  datatype WireNotification = WireNotification(summary: string, items: seq<WireItem>)

  // ----- the two directions, as functions -----

  function Present<T(==)>(s: seq<T>): Option<seq<T>> {
    if s == [] then None else Some(s)
  }

  function Given<T>(o: Option<seq<T>>): seq<T> {
    match o case None => [] case Some(s) => s
  }

  function Encoded(item: Item): WireItem {
    WireItem(item.appName, item.cluster, item.trigger,
             commitSHA := Present(item.commitSHA), commitURL := Present(item.commitURL),
             targetRevision := Present(item.targetRevision), detailText := Present(item.detailText),
             link := Present(item.link), triggeredBy := Present(item.triggeredBy),
             images := Present(item.images), fields := Present(item.fields))
  }

  function Decoded(wire: WireItem): Item {
    Item(wire.appName, wire.cluster, wire.trigger,
         commitURL := Given(wire.commitURL), commitSHA := Given(wire.commitSHA),
         targetRevision := Given(wire.targetRevision), triggeredBy := Given(wire.triggeredBy),
         images := Given(wire.images), fields := Given(wire.fields),
         detailText := Given(wire.detailText), link := Given(wire.link))
  }

  /** The optional field is there iff there is something to send, and then it is that. */
  predicate IsSent<T(==)>(sent: Option<seq<T>>, value: seq<T>) {
    (sent.Some? <==> |value| > 0) && (sent.Some? ==> sent.value == value)
  }

  /** What was sent, or nothing. */
  predicate IsRead<T(==)>(sent: Option<seq<T>>, value: seq<T>) {
    (sent.Some? ==> value == sent.value) && (sent.None? ==> |value| == 0)
  }

  /** Each field goes under its own name. */
  predicate Sends(wire: WireItem, item: Item) {
    && wire.appName == item.appName && wire.cluster == item.cluster && wire.trigger == item.trigger
    && IsSent(wire.commitSHA, item.commitSHA) && IsSent(wire.commitURL, item.commitURL)
    && IsSent(wire.targetRevision, item.targetRevision) && IsSent(wire.detailText, item.detailText)
    && IsSent(wire.link, item.link) && IsSent(wire.triggeredBy, item.triggeredBy)
    && IsSent(wire.images, item.images) && IsSent(wire.fields, item.fields)
  }

  /** Each field is read from its own name. */
  predicate Reads(wire: WireItem, item: Item) {
    && wire.appName == item.appName && wire.cluster == item.cluster && wire.trigger == item.trigger
    && IsRead(wire.commitSHA, item.commitSHA) && IsRead(wire.commitURL, item.commitURL)
    && IsRead(wire.targetRevision, item.targetRevision) && IsRead(wire.detailText, item.detailText)
    && IsRead(wire.link, item.link) && IsRead(wire.triggeredBy, item.triggeredBy)
    && IsRead(wire.images, item.images) && IsRead(wire.fields, item.fields)
  }

  lemma EncodedSends(item: Item)
    ensures Sends(Encoded(item), item)
  {
  }

  lemma DecodedReads(wire: WireItem)
    ensures Reads(wire, Decoded(wire))
  {
  }

  function EncodedNotification(n: Notification): WireNotification {
    WireNotification(n.summary, seq(|n.items|, i requires 0 <= i < |n.items| => Encoded(n.items[i])))
  }

  function DecodedNotification(w: WireNotification): Notification {
    Notification(w.summary, seq(|w.items|, i requires 0 <= i < |w.items| => Decoded(w.items[i])))
  }

  // ----- the program -----

  method ToWireNotification(n: Notification) returns (w: WireNotification)
    ensures w == EncodedNotification(n)
    ensures DecodedNotification(w) == n
  {
    var items: seq<WireItem> := [];
    for i := 0 to |n.items|
      invariant |items| == i
      invariant forall k :: 0 <= k < i ==> items[k] == Encoded(n.items[k])
    {
      hide Encoded;
      var wire := ToWireItem(n.items[i]);
      items := items + [wire];
    }
    w := WireNotification(n.summary, items);
    RoundTrip(n);
  }

  method ToWireItem(item: Item) returns (wire: WireItem)
    ensures wire == Encoded(item)
    ensures Sends(wire, item)
  {
    hide Sends;
    EncodedSends(item);
    wire := WireItem(item.appName, item.cluster, item.trigger);
    if item.commitSHA != "" { wire := wire.(commitSHA := Some(item.commitSHA)); }
    if item.commitURL != "" { wire := wire.(commitURL := Some(item.commitURL)); }
    if item.targetRevision != "" { wire := wire.(targetRevision := Some(item.targetRevision)); }
    if item.detailText != "" { wire := wire.(detailText := Some(item.detailText)); }
    if item.link != "" { wire := wire.(link := Some(item.link)); }
    if item.triggeredBy != "" { wire := wire.(triggeredBy := Some(item.triggeredBy)); }
    if |item.images| > 0 { wire := wire.(images := Some(item.images)); }
    if |item.fields| > 0 {
      var fields := CopyFields(item.fields);
      wire := wire.(fields := Some(fields));
    }
  }

  method FromWireNotification(w: WireNotification) returns (n: Notification)
    ensures n == DecodedNotification(w)
    ensures EncodedNotification(n) == w <==> forall i :: 0 <= i < |w.items| ==> Canonical(w.items[i])
  {
    var items: seq<Item> := [];
    for i := 0 to |w.items|
      invariant |items| == i
      invariant forall k :: 0 <= k < i ==> items[k] == Decoded(w.items[k])
    {
      hide Decoded;
      var item := FromWireItem(w.items[i]);
      items := items + [item];
    }
    n := Notification(w.summary, items);
    ReverseRoundTripIff(w);
  }

  method FromWireItem(wire: WireItem) returns (item: Item)
    ensures item == Decoded(wire)
    ensures Reads(wire, item)
  {
    hide Reads;
    DecodedReads(wire);
    item := Item(wire.appName, wire.cluster, wire.trigger, "", "", "", "", [], [], "", "");
    if wire.commitSHA.Some? { item := item.(commitSHA := wire.commitSHA.value); }
    if wire.commitURL.Some? { item := item.(commitURL := wire.commitURL.value); }
    if wire.targetRevision.Some? { item := item.(targetRevision := wire.targetRevision.value); }
    if wire.detailText.Some? { item := item.(detailText := wire.detailText.value); }
    if wire.link.Some? { item := item.(link := wire.link.value); }
    if wire.triggeredBy.Some? { item := item.(triggeredBy := wire.triggeredBy.value); }
    if wire.images.Some? { item := item.(images := wire.images.value); }
    if wire.fields.Some? {
      var fields := CopyFields(wire.fields.value);
      item := item.(fields := fields);
    }
  }

  /** The element-by-element copy both directions make of the field list. */
  method CopyFields(from: seq<Field>) returns (fields: seq<Field>)
    ensures fields == from
  {
    fields := [];
    for i := 0 to |from|
      invariant fields == from[..i]
    {
      fields := fields + [Field(from[i].name, from[i].value)];
    }
  }

  // ----- what they promise -----

  /** What arrives at the backend is what the notifier built. */
  lemma RoundTrip(n: Notification)
    ensures DecodedNotification(EncodedNotification(n)) == n
  {
    forall i | 0 <= i < |n.items| ensures Decoded(Encoded(n.items[i])) == n.items[i] {
    }
    hide Encoded, Decoded;
    assert DecodedNotification(EncodedNotification(n)).items == n.items;
  }

  /** No optional field is present and empty. */
  predicate Canonical(w: WireItem) {
    && w.commitSHA != Some("") && w.commitURL != Some("") && w.targetRevision != Some("") && w.detailText != Some("")
    && w.link != Some("") && w.triggeredBy != Some("") && w.images != Some([]) && w.fields != Some([])
  }

  /** The other way round, decoding forgets exactly the difference between an absent
      field and a present empty one. */
  lemma ReverseRoundTripIff(w: WireNotification)
    ensures EncodedNotification(DecodedNotification(w)) == w <==>
      forall i :: 0 <= i < |w.items| ==> Canonical(w.items[i])
  {
    var back := EncodedNotification(DecodedNotification(w)).items;
    forall i | 0 <= i < |w.items| ensures Encoded(Decoded(w.items[i])) == w.items[i] <==> Canonical(w.items[i]) {
    }
    hide Encoded, Decoded, Canonical;
    assert forall i :: 0 <= i < |w.items| ==> back[i] == Encoded(Decoded(w.items[i]));
    if forall i :: 0 <= i < |w.items| ==> Canonical(w.items[i]) {
      assert back == w.items;
    }
  }
}
