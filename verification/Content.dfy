/** What makes two events "the same status": the string `contentHash` digests.
    SHA-256 is taken as collision-free, so the string stands for the digest. */
module Content {
  import opened Domain
  import Text

  function Key(ev: Event): string {
    ev.trigger + "|" + ev.revision + "|" + ev.syncPhase + "|" + ev.healthStatus + "|" + ev.operationMsg
  }

  predicate Same(a: Event, b: Event) {
    && a.trigger == b.trigger && a.revision == b.revision && a.syncPhase == b.syncPhase
    && a.healthStatus == b.healthStatus && a.operationMsg == b.operationMsg
  }

  /** No separator in the four fields that are followed by one. */
  predicate HeadPlain(ev: Event) {
    '|' !in ev.trigger && '|' !in ev.revision && '|' !in ev.syncPhase && '|' !in ev.healthStatus
  }

  lemma CutFirst(a: string, restA: string, b: string, restB: string)
    requires '|' !in a && '|' !in b
    requires a + "|" + restA == b + "|" + restB
    ensures a == b && restA == restB
  {
    var s := a + "|" + restA;
    assert s == b + "|" + restB;
    Text.FirstSeparator(a, '|', s);
    Text.FirstSeparator(b, '|', s);
    assert a == s[..|a|] && b == s[..|b|];
    assert restA == s[|a| + 1..] && restB == s[|b| + 1..];
  }

  /** Among events whose first four fields hold no separator, the key decides all
      five fields, whatever the operation message holds. */
  lemma KeyIsInjective(a: Event, b: Event)
    requires HeadPlain(a) && HeadPlain(b)
    ensures Key(a) == Key(b) <==> Same(a, b)
  {
    if Key(a) == Key(b) {
      var a3, b3 := a.healthStatus + "|" + a.operationMsg, b.healthStatus + "|" + b.operationMsg;
      var a2, b2 := a.syncPhase + "|" + a3, b.syncPhase + "|" + b3;
      var a1, b1 := a.revision + "|" + a2, b.revision + "|" + b2;
      assert Key(a) == a.trigger + "|" + a1 && Key(b) == b.trigger + "|" + b1;
      CutFirst(a.trigger, a1, b.trigger, b1);
      CutFirst(a.revision, a2, b.revision, b2);
      CutFirst(a.syncPhase, a3, b.syncPhase, b3);
      CutFirst(a.healthStatus, a.operationMsg, b.healthStatus, b.operationMsg);
    }
  }

  predicate AllPlain(ev: Event) {
    HeadPlain(ev) && '|' !in ev.operationMsg
  }

  /** The exact condition when the other event is arbitrary: an event's key belongs
      to that content alone iff no hashed field holds a separator. */
  lemma KeyIsUniqueIff(ev: Event)
    ensures (forall other :: Key(other) == Key(ev) ==> Same(other, ev)) <==> AllPlain(ev)
  {
    if AllPlain(ev) {
      forall other | Key(other) == Key(ev) ensures Same(other, ev) {
        assert multiset(Key(other))['|'] == multiset(Key(ev))['|'] == 4;
        KeyIsInjective(other, ev);
      }
    } else {
      var other := Collision(ev);
    }
  }

  /** An event of different content with the same key: one separator inside a field
      is read as a boundary, and a boundary elsewhere as part of a field. */
  lemma Collision(ev: Event) returns (other: Event)
    requires !AllPlain(ev)
    ensures Key(other) == Key(ev) && !Same(other, ev)
  {
    var t, r, p, h, m := ev.trigger, ev.revision, ev.syncPhase, ev.healthStatus, ev.operationMsg;
    if '|' in t {
      var x, y := CutAt(t);
      other := ev.(trigger := x, revision := y, syncPhase := r, healthStatus := p, operationMsg := h + "|" + m);
    } else if '|' in r {
      var x, y := CutAt(r);
      other := ev.(revision := x, syncPhase := y, healthStatus := p, operationMsg := h + "|" + m);
    } else if '|' in p {
      var x, y := CutAt(p);
      other := ev.(syncPhase := x, healthStatus := y, operationMsg := h + "|" + m);
    } else if '|' in h {
      var x, y := CutAt(h);
      other := ev.(healthStatus := x, operationMsg := y + "|" + m);
    } else {
      var x, y := CutAt(m);
      other := ev.(trigger := t + "|" + r, revision := p, syncPhase := h, healthStatus := x, operationMsg := y);
    }
    assert Key(other) == Key(ev);
  }

  lemma CutAt(s: string) returns (x: string, y: string)
    requires '|' in s
    ensures s == x + "|" + y && |x| < |s| && |y| < |s|
  {
    var i := Text.IndexOf(s, '|');
    assert s[..|s|] == s;
    x, y := s[..i], s[i + 1..];
  }
}
