/**
 * The control-event scan (`processResetEvents`, `processSkipEvents`): every
 * all-day event of the day whose trimmed, upper-cased title is exactly the
 * marker is deleted, and the scan reports whether there was one.
 */
module ControlEvents {
  import opened Text
  import opened Sequences

  /** A calendar event of the day, as far as the daily run looks at it. */
  datatype Event = Event(title: string, allDay: bool)

  /** The two control markers. */
  datatype Marker = Reset | Skip

  function MarkerText(m: Marker): string {
    match m
    case Reset => "RESET"
    case Skip => "SKIP"
  }

  /** The filter of the scan: an all-day event whose normalised title equals the marker. */
  predicate IsControlEvent(e: Event, m: Marker) {
    e.allDay && Upper(Trim(e.title)) == MarkerText(m)
  }

  /** The filter of `processResetEvents` or `processSkipEvents`, as a test on events. */
  function Matches(m: Marker): Event -> bool {
    e => IsControlEvent(e, m)
  }

  /** The events a scan leaves on the calendar. */
  function Survives(m: Marker): Event -> bool {
    e => !IsControlEvent(e, m)
  }

  /** The outcome of one scan: what remains of the day, what was deleted, and whether anything was. */
  datatype Scan = Scan(remaining: seq<Event>, deleted: seq<Event>, found: bool)

  /**
   * One scan, as `processResetEvents` and `processSkipEvents` do it: every
   * matching event is deleted, every other event stays in calendar order, and
   * `found` reports whether any event matched.
   */
  function ProcessControlEvents(events: seq<Event>, m: Marker): (r: Scan)
    ensures r.found <==> exists i | 0 <= i < |events| :: IsControlEvent(events[i], m)
    ensures forall e :: e in r.remaining <==> e in events && !IsControlEvent(e, m)
    ensures forall e :: e in r.deleted <==> e in events && IsControlEvent(e, m)
    ensures multiset(r.remaining) + multiset(r.deleted) == multiset(events)
    ensures forall e :: multiset(r.remaining)[e] == if IsControlEvent(e, m) then 0 else multiset(events)[e]
  {
    var deleted := Filter(events, Matches(m));
    var remaining := Filter(events, Survives(m));
    FilterEmpty(events, Matches(m));
    FilterMembersAll(events, Matches(m));
    FilterMembersAll(events, Survives(m));
    FilterPartition(events, Survives(m), Matches(m));
    SurvivorCounts(events, m);
    Scan(remaining, deleted, |deleted| > 0)
  }

  /** A scan keeps every copy of each surviving event and no copy of a matching one. */
  lemma SurvivorCounts(events: seq<Event>, m: Marker)
    ensures forall e :: multiset(Filter(events, Survives(m)))[e]
                        == if IsControlEvent(e, m) then 0 else multiset(events)[e]
  {
    FilterMembersAll(events, Matches(m));
    FilterMembersAll(events, Survives(m));
    FilterPartition(events, Survives(m), Matches(m));
    forall e ensures multiset(Filter(events, Survives(m)))[e]
                     == if IsControlEvent(e, m) then 0 else multiset(events)[e] {
      if IsControlEvent(e, m) {
        assert e !in Filter(events, Survives(m));
      } else {
        assert e !in Filter(events, Matches(m));
      }
    }
  }

  lemma FilterMembersAll(events: seq<Event>, p: Event -> bool)
    ensures forall e :: e in Filter(events, p) <==> e in events && p(e)
  {
    forall e {
      FilterMembers(events, p, e);
    }
  }

  /** `processResetEvents`. */
  function ProcessResetEvents(events: seq<Event>): (r: Scan)
    ensures r.found <==> exists i | 0 <= i < |events| :: IsControlEvent(events[i], Reset)
    ensures forall e :: e in r.remaining <==> e in events && !IsControlEvent(e, Reset)
    ensures forall e :: e in r.deleted <==> e in events && IsControlEvent(e, Reset)
    ensures multiset(r.remaining) + multiset(r.deleted) == multiset(events)
    ensures forall e :: multiset(r.remaining)[e] == if IsControlEvent(e, Reset) then 0 else multiset(events)[e]
  {
    ProcessControlEvents(events, Reset)
  }

  /** `processSkipEvents`. */
  function ProcessSkipEvents(events: seq<Event>): (r: Scan)
    ensures r.found <==> exists i | 0 <= i < |events| :: IsControlEvent(events[i], Skip)
    ensures forall e :: e in r.remaining <==> e in events && !IsControlEvent(e, Skip)
    ensures forall e :: e in r.deleted <==> e in events && IsControlEvent(e, Skip)
    ensures multiset(r.remaining) + multiset(r.deleted) == multiset(events)
    ensures forall e :: multiset(r.remaining)[e] == if IsControlEvent(e, Skip) then 0 else multiset(events)[e]
  {
    ProcessControlEvents(events, Skip)
  }

  /** A second scan with the same marker finds nothing and deletes nothing. */
  lemma ScanIdempotent(events: seq<Event>, m: Marker)
    ensures !ProcessControlEvents(ProcessControlEvents(events, m).remaining, m).found
    ensures ProcessControlEvents(ProcessControlEvents(events, m).remaining, m).remaining
            == ProcessControlEvents(events, m).remaining
  {
    var once := ProcessControlEvents(events, m).remaining;
    forall i | 0 <= i < |once| ensures Survives(m)(once[i]) {
      assert once[i] in once;
    }
    FilterAll(once, Survives(m));
  }

  /** No event is both a RESET and a SKIP event. */
  lemma MarkersDisjoint(e: Event)
    ensures !(IsControlEvent(e, Reset) && IsControlEvent(e, Skip))
  {
  }

  /** Deleting the RESET events and deleting the SKIP events can be done in either order. */
  lemma ScansCommute(events: seq<Event>)
    ensures ProcessSkipEvents(ProcessResetEvents(events).remaining).remaining
            == ProcessResetEvents(ProcessSkipEvents(events).remaining).remaining
  {
    var neither := (e: Event) => !IsControlEvent(e, Reset) && !IsControlEvent(e, Skip);
    FilterTwice(events, Survives(Reset), Survives(Skip), neither);
    FilterTwice(events, Survives(Skip), Survives(Reset), neither);
  }

  /**
   * The RESET scan never deletes a SKIP event, so the SKIP scan that runs after
   * it finds a SKIP event exactly when the day had one.
   */
  lemma SkipScanUnaffectedByReset(events: seq<Event>)
    ensures ProcessSkipEvents(ProcessResetEvents(events).remaining).found == ProcessSkipEvents(events).found
  {
    var afterReset := ProcessResetEvents(events).remaining;
    if exists i | 0 <= i < |events| :: IsControlEvent(events[i], Skip) {
      var i :| 0 <= i < |events| && IsControlEvent(events[i], Skip);
      MarkersDisjoint(events[i]);
      assert events[i] in afterReset;
      var j :| 0 <= j < |afterReset| && afterReset[j] == events[i];
    }
    if exists j | 0 <= j < |afterReset| :: IsControlEvent(afterReset[j], Skip) {
      var j :| 0 <= j < |afterReset| && IsControlEvent(afterReset[j], Skip);
      assert afterReset[j] in events;
      var i :| 0 <= i < |events| && events[i] == afterReset[j];
    }
  }

  /**
   * The titles a scan deletes, letter by letter: once trimmed, five letters
   * spelling RESET, or four spelling SKIP, each in either case, where the
   * long s also reads as S and the dotless i as I.
   */
  lemma ControlEventLetters(e: Event)
    ensures IsControlEvent(e, Reset) <==>
      var t := Trim(e.title);
      e.allDay && |t| == 5 && t[0] in "Rr" && t[1] in "Ee" && t[2] in "Ss\U{017F}" && t[3] in "Ee" && t[4] in "Tt"
    ensures IsControlEvent(e, Skip) <==>
      var t := Trim(e.title);
      e.allDay && |t| == 4 && t[0] in "Ss\U{017F}" && t[1] in "Kk" && t[2] in "Ii\U{0131}" && t[3] in "Pp"
  {
    var t := Trim(e.title);
    var u := Upper(t);
    if |t| == 5 {
      MarkerLetters(t[0]); MarkerLetters(t[1]); MarkerLetters(t[2]); MarkerLetters(t[3]); MarkerLetters(t[4]);
      assert u == "RESET" <==> u[0] == 'R' && u[1] == 'E' && u[2] == 'S' && u[3] == 'E' && u[4] == 'T';
    }
    if |t| == 4 {
      MarkerLetters(t[0]); MarkerLetters(t[1]); MarkerLetters(t[2]); MarkerLetters(t[3]);
      assert u == "SKIP" <==> u[0] == 'S' && u[1] == 'K' && u[2] == 'I' && u[3] == 'P';
    }
  }

  /** The characters that upper-case to each letter of the two markers. */
  lemma MarkerLetters(c: char)
    ensures UpperChar(c) == 'R' <==> c in "Rr"
    ensures UpperChar(c) == 'E' <==> c in "Ee"
    ensures UpperChar(c) == 'S' <==> c in "Ss\U{017F}"
    ensures UpperChar(c) == 'T' <==> c in "Tt"
    ensures UpperChar(c) == 'K' <==> c in "Kk"
    ensures UpperChar(c) == 'I' <==> c in "Ii\U{0131}"
    ensures UpperChar(c) == 'P' <==> c in "Pp"
  {
  }

  /** Surrounding blanks and letter case do not matter; anything else in the title does. */
  lemma ControlTitleExamples()
    ensures IsControlEvent(Event(" reset\n", true), Reset)
    ensures !IsControlEvent(Event("reset", false), Reset)
    ensures !IsControlEvent(Event("RESET gym", true), Reset)
  {
    assert TrimStart(" reset\n") == TrimStart("reset\n") == "reset\n";
    assert TrimEnd("reset\n") == TrimEnd("reset") == "reset";
    assert Upper("t") == "T";
    assert Upper("et") == "ET";
    assert Upper("set") == "SET";
    assert Upper("eset") == "ESET";
    assert Upper("reset") == "RESET";
    assert TrimStart("RESET gym") == "RESET gym";
    assert TrimEnd("RESET gym") == "RESET gym";
  }
}
