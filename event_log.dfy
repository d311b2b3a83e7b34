/** The event log, event_log.py: it turns each frame's tracker report into timestamped
    messages, keeps cumulative new-instance totals per label and the set of active
    interactions, and writes a totals summary when it is closed. Standard output and the
    optional output file are modelled as sequences of lines. The specification functions
    describe what is logged as `Message` values; `Render` gives each its text. */
module Events {
  import opened Text
  import opened Tracking

  // ---------------------------------------------------------------------------
  // Messages

  /** The four kinds of event the log writes. */
  datatype Message =
    | InstanceCount(count: int, obj: string, total: int)
    | Started(x: Interaction)
    | Stopped(x: Interaction)
    | Total(obj: string, total: int)

  /** The f-strings of the four events. */
  function Render(m: Message): string {
    match m
    case InstanceCount(count, obj, total) =>
      IntToString(count) + " new instance of " + obj + ". Total is now: " + IntToString(total)
    case Started(x) => x.objectA + " " + x.verb + " " + x.objectB
    case Stopped(x) => x.objectA + " no longer " + x.verb + " " + x.objectB
    case Total(obj, total) => obj + " total: " + IntToString(total)
  }

  /** `f"{time:05} - {event}"`. */
  function Stamp(time: int, event: string): string {
    FormatFrame(time) + " - " + event
  }

  /** A stamped line is the frame stamp, then " - ", then the event text. */
  lemma StampShape(time: int, event: string)
    ensures var r, stamp := Stamp(time, event), FormatFrame(time);
            && |r| == |stamp| + 3 + |event|
            && r[..|stamp|] == stamp && r[|stamp|..|stamp| + 3] == " - " && r[|r| - |event|..] == event
  {
  }

  /** An interaction message names object A first and object B last. A stop message has
      " no longer " after A; a start message has a space and then its verb there, so it reads
      differently exactly when the verb does not begin with 'n'. A count message begins
      with the count, a total line with its label. */
  lemma RenderShape(m: Message)
    ensures var r := Render(m);
            && (m.Started? || m.Stopped? ==>
                  |r| >= |m.x.objectA| + |m.x.objectB| && r[..|m.x.objectA|] == m.x.objectA && r[|r| - |m.x.objectB|..] == m.x.objectB)
            && (m.Stopped? ==> r[|m.x.objectA|..|m.x.objectA| + 11] == " no longer ")
            && (m.Started? ==> r[|m.x.objectA|..|m.x.objectA| + 1] == " ")
            && (m.Started? && (m.x.verb == [] || m.x.verb[0] != 'n') ==>
                  !(|r| >= |m.x.objectA| + 11 && r[|m.x.objectA|..|m.x.objectA| + 11] == " no longer "))
            && (m.InstanceCount? ==> |r| >= |IntToString(m.count)| && r[..|IntToString(m.count)|] == IntToString(m.count))
            && (m.Total? ==> |r| >= |m.obj| && r[..|m.obj|] == m.obj)
  {
    if m.Started? {
      var r, a := Render(m), |m.x.objectA|;
      assert r[a + 1] == if m.x.verb == [] then ' ' else m.x.verb[0];
      if |r| >= a + 11 && r[a..a + 11] == " no longer " {
        assert r[a + 1] == r[a..a + 11][1] == 'n';
      }
    }
  }

  /** The verb goes into the text unchecked, so a start message whose verb begins with
      "no longer " reads exactly like a stop message. */
  lemma StartCanReadAsStop()
    ensures Render(Started(Interaction("A", "B", "no longer x"))) == Render(Stopped(Interaction("A", "B", "x")))
  {
  }

  /** The stamped lines of messages logged at one frame. */
  function Lines(time: int, ms: seq<Message>): (r: seq<string>)
    ensures |r| == |ms|
  {
    seq(|ms|, i requires 0 <= i < |ms| => Stamp(time, Render(ms[i])))
  }

  /** What the file receives for the given lines: each followed by a newline. */
  function FileLines(lines: seq<string>): (r: seq<string>)
    ensures |r| == |lines|
  {
    seq(|lines|, i requires 0 <= i < |lines| => lines[i] + "\n")
  }

  // ---------------------------------------------------------------------------
  // Cumulative totals (_update_new_instance_counts)

  /** A dict of running totals together with its key insertion order. */
  datatype Tally = Tally(counts: map<string, int>, order: seq<string>)

  const EmptyTally: Tally := Tally(map[], [])

  /** The order lists every key exactly once. */
  ghost predicate WellFormed(t: Tally) {
    NoDup(t.order) && forall l :: l in t.counts <==> l in t.order
  }

  /** The value of a key, 0 when absent. */
  function Get(m: map<string, int>, l: string): int {
    if l in m then m[l] else 0
  }

  /** One entry of a `new_instances` dict: a zero is skipped, a new key is added at the
      end of the order, an existing key grows by the count. */
  function AddCount(t: Tally, obj: string, count: int): (r: Tally)
    ensures Get(r.counts, obj) == Get(t.counts, obj) + count
    ensures forall l :: l != obj ==> Get(r.counts, l) == Get(t.counts, l)
    ensures t.order <= r.order && |r.order| <= |t.order| + 1
    ensures forall l :: l in r.order ==> l in t.order || l == obj
    ensures count != 0 && obj !in t.counts ==> r.order == t.order + [obj]
  {
    if count == 0 then t
    else if obj in t.counts then Tally(t.counts[obj := t.counts[obj] + count], t.order)
    else Tally(t.counts[obj := count], t.order + [obj])
  }

  function Accumulate(t: Tally, items: seq<(string, int)>): Tally {
    if items == [] then t
    else
      var last := items[|items| - 1];
      AddCount(Accumulate(t, items[..|items| - 1]), last.0, last.1)
  }

  /** The messages of one `_update_new_instance_counts` call: one per non-zero entry,
      with the total as it stands after that entry. */
  function CountMessages(t: Tally, items: seq<(string, int)>): seq<Message> {
    if items == [] then []
    else
      var last := items[|items| - 1];
      CountMessages(t, items[..|items| - 1])
      + (if last.1 == 0 then [] else [InstanceCount(last.1, last.0, Get(Accumulate(t, items).counts, last.0))])
  }

  /** The sum of the counts the entries give the label. */
  function SumFor(items: seq<(string, int)>, l: string): int {
    if items == [] then 0
    else
      var last := items[|items| - 1];
      SumFor(items[..|items| - 1], l) + (if last.0 == l then last.1 else 0)
  }

  function Keys(items: seq<(string, int)>): (r: seq<string>)
    ensures |r| == |items|
  {
    seq(|items|, i requires 0 <= i < |items| => items[i].0)
  }

  /** The entries with a non-zero count, in order. */
  function NonZero(items: seq<(string, int)>): (r: seq<(string, int)>)
    ensures |r| <= |items|
    ensures forall e :: e in r ==> e in items && e.1 != 0
  {
    if items == [] then []
    else
      var last := items[|items| - 1];
      NonZero(items[..|items| - 1]) + (if last.1 == 0 then [] else [last])
  }

  /** The summary messages of `__exit__`: one per key, in insertion order. */
  function Totals(t: Tally): (r: seq<Message>)
    ensures |r| == |t.order|
  {
    seq(|t.order|, i requires 0 <= i < |t.order| => Total(t.order[i], Get(t.counts, t.order[i])))
  }

  // ---------------------------------------------------------------------------
  // Active interactions (_update_interactions)

  function ToSet<T>(s: seq<T>): set<T> {
    set x | x in s
  }

  function SymmetricDifference<T>(a: set<T>, b: set<T>): set<T> {
    (a - b) + (b - a)
  }

  /** `changes` lists each element of `s` exactly once, in some order. */
  ghost predicate IsEnumeration(changes: seq<Interaction>, s: set<Interaction>) {
    NoDup(changes) && forall x :: x in changes <==> x in s
  }

  /** A change that was active is announced as stopped, any other as started. */
  function ChangeMessage(x: Interaction, active: seq<Interaction>): Message {
    if x in active then Stopped(x) else Started(x)
  }

  /** The messages for the changes in the order they are visited. */
  function ChangeMessages(changes: seq<Interaction>, active: seq<Interaction>): (r: seq<Message>)
    ensures |r| == |changes|
  {
    seq(|changes|, i requires 0 <= i < |changes| => ChangeMessage(changes[i], active))
  }

  /** `list.remove`: drops the first occurrence. */
  function RemoveFirst(s: seq<Interaction>, x: Interaction): (r: seq<Interaction>)
    ensures NoDup(s) ==> NoDup(r) && forall y :: y in r <==> y in s && y != x
  {
    if s == [] then []
    else if s[0] == x then
      assert NoDup(s) ==> x !in s[1..];
      s[1..]
    else
      var rest := RemoveFirst(s[1..], x);
      assert forall y :: y in s <==> y == s[0] || y in s[1..];
      NoDupCons(s);
      NoDupPrepend(s[0], rest);
      [s[0]] + rest
  }

  // ---------------------------------------------------------------------------
  // Output

  /** Standard output and the output file, one entry per line. */
  datatype Output = Output(printed: seq<string>, written: seq<string>)

  /** The output after emitting the lines: printed, and also written with newlines when
      there is a file. */
  function EmitAll(out: Output, hasFile: bool, lines: seq<string>): Output {
    Output(out.printed + lines, if hasFile then out.written + FileLines(lines) else out.written)
  }

  // ---------------------------------------------------------------------------
  // The log

  class EventLog {
    /** `output_file`; `None` or the empty string means no file. */
    const outputFile: Option<string>
    /** `_new_instance_counts` with its key insertion order. */
    var newInstanceCounts: Tally
    var currentInteractions: seq<Interaction>
    var lastTime: int
    var fileOpen: bool
    /** Standard output, and what has been written to the file since it was opened. */
    var out: Output
    /** Every `new_instances` entry received so far. */
    ghost var history: seq<(string, int)>

    /** The truth value of `self._output_file`. */
    predicate HasFile() {
      outputFile.Some? && outputFile.value != ""
    }

    /** The totals are those of every entry received, keyed in first-seen order, and the
        active interactions hold no duplicates. */
    ghost predicate Valid()
      reads this
    {
      && WellFormed(newInstanceCounts)
      && newInstanceCounts == Accumulate(EmptyTally, history)
      && NoDup(currentInteractions)
    }

    constructor (outputFile: Option<string> := None)
      ensures Valid()
      ensures this.outputFile == outputFile
      ensures newInstanceCounts == EmptyTally && currentInteractions == [] && lastTime == 0
      ensures !fileOpen && out == Output([], []) && history == []
    {
      this.outputFile := outputFile;
      newInstanceCounts := EmptyTally;
      currentInteractions := [];
      lastTime := 0;
      fileOpen := false;
      out := Output([], []);
      history := [];
    }

    /** `__enter__`: opens (and truncates) the file when one is configured. */
    method Enter()
      modifies this`fileOpen, this`out
      ensures fileOpen == (old(fileOpen) || HasFile())
      ensures out == if HasFile() then Output(old(out).printed, []) else old(out)
    {
      if HasFile() {
        fileOpen := true;
        out := out.(written := []);
      }
    }

    /** `__exit__`: one total line per label, stamped with the last frame, then the file
        is closed. */
    method Exit()
      requires HasFile() ==> fileOpen
      modifies this`out, this`fileOpen
      ensures out == EmitAll(old(out), HasFile(), Lines(lastTime, Totals(newInstanceCounts)))
      ensures fileOpen == (old(fileOpen) && !HasFile())
    {
      ghost var totals := Totals(newInstanceCounts);
      for i := 0 to |newInstanceCounts.order|
        invariant fileOpen == old(fileOpen)
        invariant out == EmitAll(old(out), HasFile(), Lines(lastTime, totals[..i]))
        modifies this`out
      {
        var obj := newInstanceCounts.order[i];
        PrefixSnoc(totals, i);
        LinesSnoc(lastTime, totals[..i], totals[i]);
        EmitAllAppend(old(out), HasFile(), Lines(lastTime, totals[..i]), [Stamp(lastTime, Render(totals[i]))]);
        LogEvent(lastTime, Render(Total(obj, Get(newInstanceCounts.counts, obj))));
      }
      PrefixSnoc(totals, |totals|);
      if HasFile() {
        fileOpen := false;
      }
    }

    /** `_log_event`: prints the stamped line, and writes it with a newline to the file
        when one is configured. */
    method LogEvent(time: int, event: string)
      requires HasFile() ==> fileOpen
      modifies this`out
      ensures out == EmitAll(old(out), HasFile(), [Stamp(time, event)])
    {
      var formattedEvent := FormatFrame(time) + " - " + event;
      var written := out.written;
      if HasFile() {
        written := written + [formattedEvent + "\n"];
      }
      out := Output(out.printed + [formattedEvent], written);
    }

    /** `update_state`: new-instance messages first, then interaction changes, then the
        frame becomes the last one seen. The interaction messages come in the unspecified
        iteration order of a set: some enumeration of the symmetric difference. */
    method UpdateState(time: int, state: StateDelta)
      requires Valid() && (HasFile() ==> fileOpen)
      modifies this
      ensures Valid()
      ensures history == old(history) + state.newInstances
      ensures newInstanceCounts == Accumulate(old(newInstanceCounts), state.newInstances)
      ensures NoDup(currentInteractions) && ToSet(currentInteractions) == ToSet(state.interactions)
      ensures lastTime == time && fileOpen == old(fileOpen)
      ensures exists changes ::
                && IsEnumeration(changes, SymmetricDifference(ToSet(state.interactions), ToSet(old(currentInteractions))))
                && out == EmitAll(old(out), HasFile(), Lines(time, CountMessages(old(newInstanceCounts), state.newInstances)
                                                                   + ChangeMessages(changes, old(currentInteractions))))
    {
      ghost var counted := CountMessages(newInstanceCounts, state.newInstances);
      UpdateNewInstanceCounts(time, state.newInstances);
      ghost var changes := UpdateInteractions(time, state.interactions);
      lastTime := time;
      ghost var changed := ChangeMessages(changes, old(currentInteractions));
      EmitAllAppend(old(out), HasFile(), Lines(time, counted), Lines(time, changed));
      LinesAppend(time, counted, changed);
      assert IsEnumeration(changes, SymmetricDifference(ToSet(state.interactions), ToSet(old(currentInteractions))));
    }

    /** `_update_new_instance_counts`. */
    method UpdateNewInstanceCounts(time: int, newInstances: seq<(string, int)>)
      requires Valid() && (HasFile() ==> fileOpen)
      modifies this`newInstanceCounts, this`out, this`history
      ensures Valid()
      ensures history == old(history) + newInstances
      ensures newInstanceCounts == Accumulate(old(newInstanceCounts), newInstances)
      ensures out == EmitAll(old(out), HasFile(), Lines(time, CountMessages(old(newInstanceCounts), newInstances)))
    {
      ghost var start := newInstanceCounts;
      for i := 0 to |newInstances|
        invariant Valid()
        invariant history == old(history) + newInstances[..i]
        invariant newInstanceCounts == Accumulate(start, newInstances[..i])
        invariant out == EmitAll(old(out), HasFile(), Lines(time, CountMessages(start, newInstances[..i])))
      {
        CountEntry(time, newInstances, i, start, old(history), old(out));
      }
      PrefixSnoc(newInstances, |newInstances|);
    }

    /** One iteration of the count loop: the entry is added, and the loop's description of
        the totals, of the entries received and of the output moves on by that entry. */
    method CountEntry(time: int, items: seq<(string, int)>, i: nat, ghost start: Tally,
                      ghost before: seq<(string, int)>, ghost startOut: Output)
      requires HasFile() ==> fileOpen
      requires i < |items| && start == Accumulate(EmptyTally, before)
      requires Valid() && history == before + items[..i] && newInstanceCounts == Accumulate(start, items[..i])
      requires out == EmitAll(startOut, HasFile(), Lines(time, CountMessages(start, items[..i])))
      modifies this`newInstanceCounts, this`out, this`history
      ensures Valid() && history == before + items[..i + 1] && newInstanceCounts == Accumulate(start, items[..i + 1])
      ensures out == EmitAll(startOut, HasFile(), Lines(time, CountMessages(start, items[..i + 1])))
    {
      CountStep(start, before, items, i);
      var (obj, count) := items[i];
      AddCountWellFormed(newInstanceCounts, obj, count);
      ghost var done := CountMessages(start, items[..i]);
      AddInstanceCount(time, obj, count);
      EmitLinesAppend(startOut, HasFile(), time, done,
                      if count == 0 then [] else [InstanceCount(count, obj, Get(newInstanceCounts.counts, obj))]);
      history := history + [items[i]];
    }

    /** The body of the count loop for one entry: a zero is skipped, otherwise the total
        grows (or the key is added) and the new total is announced. */
    method AddInstanceCount(time: int, obj: string, count: int)
      requires HasFile() ==> fileOpen
      modifies this`newInstanceCounts, this`out
      ensures newInstanceCounts == AddCount(old(newInstanceCounts), obj, count)
      ensures out == EmitAll(old(out), HasFile(),
                             Lines(time, if count == 0 then [] else [InstanceCount(count, obj, Get(newInstanceCounts.counts, obj))]))
    {
      if count == 0 {
        assert EmitAll(out, HasFile(), Lines(time, [])) == out;
        return;
      }
      var counts := newInstanceCounts.counts;
      if obj in counts {
        newInstanceCounts := Tally(counts[obj := counts[obj] + count], newInstanceCounts.order);
      } else {
        newInstanceCounts := Tally(counts[obj := count], newInstanceCounts.order + [obj]);
      }
      LinesOne(time, InstanceCount(count, obj, newInstanceCounts.counts[obj]));
      LogEvent(time, Render(InstanceCount(count, obj, newInstanceCounts.counts[obj])));
    }

    /** `_update_interactions`: each tuple in the symmetric difference of the new and the
        active interactions is visited once, in an unspecified order; an active one is
        announced as stopped and removed, any other announced as started and appended.
        The returned ghost sequence is the order of the visit. */
    method UpdateInteractions(time: int, interactions: seq<Interaction>) returns (ghost done: seq<Interaction>)
      requires NoDup(currentInteractions) && (HasFile() ==> fileOpen)
      modifies this`currentInteractions, this`out
      ensures NoDup(currentInteractions)
      ensures ToSet(currentInteractions) == ToSet(interactions)
      ensures IsEnumeration(done, SymmetricDifference(ToSet(interactions), ToSet(old(currentInteractions))))
      ensures out == EmitAll(old(out), HasFile(), Lines(time, ChangeMessages(done, old(currentInteractions))))
    {
      var interactionChanges := SymmetricDifference(ToSet(interactions), ToSet(currentInteractions));
      ghost var active := currentInteractions;
      var order := Enumerate(interactionChanges);
      for i := 0 to |order|
        invariant NoDup(currentInteractions)
        invariant forall x :: x in currentInteractions <==> if x in order[..i] then x in interactions else x in active
        invariant out == EmitAll(old(out), HasFile(), Lines(time, ChangeMessages(order[..i], active)))
      {
        VisitChange(time, order, i, ToSet(interactions), active, old(out));
      }
      assert order[..|order|] == order;
      done := order;
      ActiveAfterAllChanges(currentInteractions, ToSet(interactions), active);
    }

    /** One iteration of the change loop: the tuple is applied, and the loop's description
        of the active list, of the visit order and of the output moves on by that tuple. */
    method VisitChange(time: int, changes: seq<Interaction>, i: nat, ghost now: set<Interaction>,
                       ghost active: seq<Interaction>, ghost start: Output)
      requires HasFile() ==> fileOpen
      requires i < |changes| && IsEnumeration(changes, SymmetricDifference(now, ToSet(active)))
      requires NoDup(currentInteractions)
      requires forall x :: x in currentInteractions <==> if x in changes[..i] then x in now else x in active
      requires out == EmitAll(start, HasFile(), Lines(time, ChangeMessages(changes[..i], active)))
      modifies this`currentInteractions, this`out
      ensures NoDup(currentInteractions)
      ensures forall x :: x in currentInteractions <==> if x in changes[..i + 1] then x in now else x in active
      ensures out == EmitAll(start, HasFile(), Lines(time, ChangeMessages(changes[..i + 1], active)))
    {
      var change := changes[i];
      PrefixSnoc(changes, i);
      ghost var processed := ToSet(changes[..i]);
      assert change !in processed;
      ChangeStep(currentInteractions, change, now, active, processed);
      ChangeMessagesSnoc(changes[..i], change, active);
      EmitLinesAppend(start, HasFile(), time, ChangeMessages(changes[..i], active), [ChangeMessage(change, active)]);
      ApplyChange(time, change);
      assert forall x :: x in changes[..i + 1] <==> x in processed + {change};
    }

    /** The body of the change loop for one tuple: an active one is announced as stopped
        and removed, any other announced as started and appended. */
    method ApplyChange(time: int, change: Interaction)
      requires HasFile() ==> fileOpen
      modifies this`currentInteractions, this`out
      ensures currentInteractions == if change in old(currentInteractions)
                                     then RemoveFirst(old(currentInteractions), change)
                                     else old(currentInteractions) + [change]
      ensures out == EmitAll(old(out), HasFile(), Lines(time, [ChangeMessage(change, old(currentInteractions))]))
    {
      LinesOne(time, ChangeMessage(change, currentInteractions));
      if change in currentInteractions {
        LogEvent(time, Render(Stopped(change)));
        currentInteractions := RemoveFirst(currentInteractions, change);
      } else {
        LogEvent(time, Render(Started(change)));
        currentInteractions := currentInteractions + [change];
      }
    }
  }

  // ---------------------------------------------------------------------------
  // Helper lemmas

  lemma NoDupCons(s: seq<Interaction>)
    requires s != []
    ensures NoDup(s) ==> s[0] !in s[1..] && NoDup(s[1..])
  {
    if NoDup(s) {
      forall i | 0 <= i < |s| - 1 ensures s[1..][i] != s[0] {
        assert s[1..][i] == s[i + 1];
      }
    }
  }

  lemma NoDupPrepend(x: Interaction, s: seq<Interaction>)
    ensures x !in s && NoDup(s) ==> NoDup([x] + s)
  {
  }

  /** One visited change keeps the loop's description of the active list. */
  lemma ChangeStep(current: seq<Interaction>, change: Interaction, now: set<Interaction>, active: seq<Interaction>,
                   processed: set<Interaction>)
    requires NoDup(current)
    requires forall x :: x in current <==> if x in processed then x in now else x in active
    requires change !in processed && change in SymmetricDifference(now, ToSet(active))
    ensures ChangeMessage(change, current) == ChangeMessage(change, active)
    ensures var next := if change in current then RemoveFirst(current, change) else current + [change];
            && NoDup(next)
            && forall x :: x in next <==> if x in processed + {change} then x in now else x in active
  {
    if change !in current {
      assert NoDup(current + [change]);
    }
  }

  /** Once every change is visited, the active list holds exactly the new tuples. */
  lemma ActiveAfterAllChanges(current: seq<Interaction>, now: set<Interaction>, active: seq<Interaction>)
    requires forall x :: x in current <==> if x in SymmetricDifference(now, ToSet(active)) then x in now else x in active
    ensures ToSet(current) == now
  {
    forall x ensures x in ToSet(current) <==> x in now {
      assert x in ToSet(active) <==> x in active;
    }
  }

  /** Lists the elements of a set, each once, in an unspecified order. */
  method Enumerate(s: set<Interaction>) returns (order: seq<Interaction>)
    ensures IsEnumeration(order, s)
  {
    order := [];
    var remaining := s;
    while remaining != {}
      invariant remaining <= s && IsEnumeration(order, s - remaining)
      decreases |remaining|
    {
      var x :| x in remaining;
      EnumerationSnoc(order, x, s - remaining);
      order := order + [x];
      remaining := remaining - {x};
      assert s - remaining == (s - (remaining + {x})) + {x};
    }
  }

  lemma EnumerationSnoc(done: seq<Interaction>, x: Interaction, processed: set<Interaction>)
    requires IsEnumeration(done, processed) && x !in processed
    ensures IsEnumeration(done + [x], processed + {x})
  {
  }

  lemma PrefixSnoc<T>(s: seq<T>, i: nat)
    requires i <= |s|
    ensures i < |s| ==> s[..i + 1] == s[..i] + [s[i]]
    ensures i == |s| ==> s[..i] == s
  {
  }

  lemma LinesAppend(time: int, a: seq<Message>, b: seq<Message>)
    ensures Lines(time, a + b) == Lines(time, a) + Lines(time, b)
  {
    forall i | 0 <= i < |a + b| ensures Lines(time, a + b)[i] == (Lines(time, a) + Lines(time, b))[i] {
      assert (a + b)[i] == if i < |a| then a[i] else b[i - |a|];
    }
  }

  lemma LinesOne(time: int, m: Message)
    ensures Lines(time, [m]) == [Stamp(time, Render(m))]
  {
  }

  lemma LinesSnoc(time: int, ms: seq<Message>, m: Message)
    ensures Lines(time, ms + [m]) == Lines(time, ms) + [Stamp(time, Render(m))]
  {
    LinesAppend(time, ms, [m]);
    LinesOne(time, m);
  }

  lemma FileLinesAppend(a: seq<string>, b: seq<string>)
    ensures FileLines(a + b) == FileLines(a) + FileLines(b)
  {
  }

  lemma EmitAllAppend(out: Output, hasFile: bool, a: seq<string>, b: seq<string>)
    ensures EmitAll(EmitAll(out, hasFile, a), hasFile, b) == EmitAll(out, hasFile, a + b)
  {
    FileLinesAppend(a, b);
    assert out.printed + a + b == out.printed + (a + b);
    assert out.written + FileLines(a) + FileLines(b) == out.written + (FileLines(a) + FileLines(b));
  }

  /** Emitting the lines of two runs of messages one after the other. */
  lemma EmitLinesAppend(out: Output, hasFile: bool, time: int, a: seq<Message>, b: seq<Message>)
    ensures EmitAll(EmitAll(out, hasFile, Lines(time, a)), hasFile, Lines(time, b)) == EmitAll(out, hasFile, Lines(time, a + b))
  {
    EmitAllAppend(out, hasFile, Lines(time, a), Lines(time, b));
    LinesAppend(time, a, b);
  }

  lemma ChangeMessagesSnoc(done: seq<Interaction>, x: Interaction, active: seq<Interaction>)
    ensures ChangeMessages(done + [x], active) == ChangeMessages(done, active) + [ChangeMessage(x, active)]
  {
  }

  /** One step of the count loop, on the specification side. */
  lemma CountStep(start: Tally, before: seq<(string, int)>, items: seq<(string, int)>, i: nat)
    requires i < |items| && start == Accumulate(EmptyTally, before)
    ensures before + items[..i + 1] == (before + items[..i]) + [items[i]]
    ensures Accumulate(start, items[..i + 1]) == AddCount(Accumulate(start, items[..i]), items[i].0, items[i].1)
    ensures Accumulate(EmptyTally, before + items[..i]) == Accumulate(start, items[..i])
    ensures Accumulate(EmptyTally, before + items[..i + 1]) == Accumulate(start, items[..i + 1])
    ensures CountMessages(start, items[..i + 1])
            == CountMessages(start, items[..i])
               + (if items[i].1 == 0 then []
                  else [InstanceCount(items[i].1, items[i].0, Get(Accumulate(start, items[..i + 1]).counts, items[i].0))])
  {
    PrefixStep(start, items, i);
    assert items[..i + 1] == items[..i] + [items[i]];
    assert before + (items[..i] + [items[i]]) == (before + items[..i]) + [items[i]];
    AccumulateAppend(EmptyTally, before, items[..i]);
    AccumulateAppend(EmptyTally, before, items[..i + 1]);
  }

  /** Taking one more entry of the batch applies AddCount and appends its message. */
  lemma PrefixStep(start: Tally, items: seq<(string, int)>, i: nat)
    requires i < |items|
    ensures Accumulate(start, items[..i + 1]) == AddCount(Accumulate(start, items[..i]), items[i].0, items[i].1)
    ensures CountMessages(start, items[..i + 1])
            == CountMessages(start, items[..i])
               + (if items[i].1 == 0 then []
                  else [InstanceCount(items[i].1, items[i].0, Get(Accumulate(start, items[..i + 1]).counts, items[i].0))])
  {
    assert items[..i + 1][..i] == items[..i];
  }

  lemma AddCountWellFormed(t: Tally, obj: string, count: int)
    requires WellFormed(t)
    ensures WellFormed(AddCount(t, obj, count))
  {
  }

  lemma {:induction false} AccumulateAppend(t: Tally, a: seq<(string, int)>, b: seq<(string, int)>)
    ensures Accumulate(t, a + b) == Accumulate(Accumulate(t, a), b)
    decreases |b|
  {
    if b == [] {
      assert a + b == a;
    } else {
      var init := b[..|b| - 1];
      AccumulateAppend(t, a, init);
      assert (a + b)[..|a + b| - 1] == a + init;
    }
  }

  // ---------------------------------------------------------------------------
  // Properties of the lines

  /** Every logged line is the frame stamp (at least five digits for a non-negative
      frame, reading back as the frame), the separator, then the message text; the file
      copy of each line ends in a newline. */
  lemma LineFormat(time: nat, ms: seq<Message>, i: nat)
    requires i < |ms|
    ensures var stamp := FormatFrame(time);
            && |stamp| >= 5 && IsDigits(stamp) && DigitsValue(stamp) == time
            && Lines(time, ms)[i] == stamp + " - " + Render(ms[i])
            && FileLines(Lines(time, ms))[i] == stamp + " - " + Render(ms[i]) + "\n"
  {
    FormatFrameRoundTrip(time);
  }

  // ---------------------------------------------------------------------------
  // Properties of the totals

  /** A label has a total exactly when it was already tallied or some entry gave it a
      non-zero count; its total grows by the sum of its entries. */
  lemma {:induction false} AccumulateTotals(t: Tally, items: seq<(string, int)>, l: string)
    ensures l in Accumulate(t, items).counts
            <==> l in t.counts || exists i :: 0 <= i < |items| && items[i].0 == l && items[i].1 != 0
    ensures Get(Accumulate(t, items).counts, l) == Get(t.counts, l) + SumFor(items, l)
  {
    if items != [] {
      var init := items[..|items| - 1];
      AccumulateTotals(t, init, l);
      assert forall i :: 0 <= i < |init| ==> init[i] == items[i];
    }
  }

  /** The key order stays duplicate-free and covers the keys; existing keys keep their
      places and new keys are appended. */
  lemma {:induction false} AccumulateWellFormed(t: Tally, items: seq<(string, int)>)
    requires WellFormed(t)
    ensures WellFormed(Accumulate(t, items))
    ensures t.order <= Accumulate(t, items).order
  {
    if items != [] {
      var init := items[..|items| - 1];
      AccumulateWellFormed(t, init);
      AddCountWellFormed(Accumulate(t, init), items[|items| - 1].0, items[|items| - 1].1);
    }
  }

  lemma {:induction false} SumForAbsent(items: seq<(string, int)>, l: string)
    requires l !in Keys(items)
    ensures SumFor(items, l) == 0
  {
    if items != [] {
      var init := items[..|items| - 1];
      assert Keys(init) == Keys(items)[..|items| - 1];
      assert Keys(items)[|items| - 1] == items[|items| - 1].0;
      SumForAbsent(init, l);
    }
  }

  /** In a dict, the entry with the label's key holds the label's whole sum. */
  lemma {:induction false} SumForUnique(items: seq<(string, int)>, l: string, i: nat)
    requires NoDup(Keys(items)) && i < |items| && items[i].0 == l
    ensures SumFor(items, l) == items[i].1
  {
    var init := items[..|items| - 1];
    assert Keys(init) == Keys(items)[..|items| - 1];
    if i == |items| - 1 {
      assert forall k :: 0 <= k < |init| ==> Keys(init)[k] == Keys(items)[k] != Keys(items)[i];
      SumForAbsent(init, l);
    } else {
      assert Keys(items)[|items| - 1] != Keys(items)[i];
      SumForUnique(init, l, i);
    }
  }

  /** The messages that announce each entry with its count and the previous total plus
      that count. */
  function Announcements(t: Tally, entries: seq<(string, int)>): (r: seq<Message>)
    ensures |r| == |entries|
  {
    if entries == [] then []
    else
      var e := entries[|entries| - 1];
      Announcements(t, entries[..|entries| - 1]) + [InstanceCount(e.1, e.0, Get(t.counts, e.0) + e.1)]
  }

  /** The total announced for the last entry of a dict is the previous total plus its
      count, since no earlier entry has its key. */
  lemma LastTotal(t: Tally, items: seq<(string, int)>)
    requires items != [] && NoDup(Keys(items))
    ensures var last := items[|items| - 1];
            Get(Accumulate(t, items).counts, last.0) == Get(t.counts, last.0) + last.1
  {
    var init := items[..|items| - 1];
    var last := items[|items| - 1];
    assert Keys(init) == Keys(items)[..|items| - 1];
    assert Keys(items)[|items| - 1] == last.0;
    assert last.0 !in Keys(init);
    SumForAbsent(init, last.0);
    AccumulateTotals(t, items, last.0);
  }

  /** For a dict (distinct keys), there is one message per non-zero entry, in order, and
      each carries the previous total plus that count; zero entries say nothing. */
  lemma {:induction false} CountMessagesOfDict(t: Tally, items: seq<(string, int)>)
    requires NoDup(Keys(items))
    ensures CountMessages(t, items) == Announcements(t, NonZero(items))
  {
    if items != [] {
      var init := items[..|items| - 1];
      assert Keys(init) == Keys(items)[..|items| - 1];
      CountMessagesOfDict(t, init);
      if items[|items| - 1].1 != 0 {
        LastTotal(t, items);
        DictStep(t, items);
      } else {
        assert CountMessages(t, items) == CountMessages(t, init) + [] == CountMessages(t, init);
        assert NonZero(items) == NonZero(init) + [] == NonZero(init);
      }
    }
  }

  /** The inductive step of `CountMessagesOfDict` for a non-zero last entry. */
  lemma DictStep(t: Tally, items: seq<(string, int)>)
    requires items != [] && items[|items| - 1].1 != 0
    requires Get(Accumulate(t, items).counts, items[|items| - 1].0) == Get(t.counts, items[|items| - 1].0) + items[|items| - 1].1
    requires CountMessages(t, items[..|items| - 1]) == Announcements(t, NonZero(items[..|items| - 1]))
    ensures CountMessages(t, items) == Announcements(t, NonZero(items))
  {
    var init := items[..|items| - 1];
    var last := items[|items| - 1];
    var before := NonZero(init);
    var m := InstanceCount(last.1, last.0, Get(t.counts, last.0) + last.1);
    var m0 := InstanceCount(last.1, last.0, Get(Accumulate(t, items).counts, last.0));
    assert m0 == m;
    calc {
      CountMessages(t, items);
      CountMessages(t, init) + [m0];
      CountMessages(t, init) + [m];
      Announcements(t, before) + [m];
      { AnnouncementsSnoc(t, before, last); }
      Announcements(t, before + [last]);
      { assert NonZero(items) == before + [last]; }
      Announcements(t, NonZero(items));
    }
  }

  lemma AnnouncementsSnoc(t: Tally, entries: seq<(string, int)>, e: (string, int))
    ensures Announcements(t, entries + [e]) == Announcements(t, entries) + [InstanceCount(e.1, e.0, Get(t.counts, e.0) + e.1)]
  {
    assert (entries + [e])[..|entries|] == entries;
  }

  /** What `__exit__` reports for the totals built from every entry ever received: one
      message per label that ever had a non-zero count, each label once, in first-seen
      order, carrying the sum of the label's counts. */
  lemma TotalsMeaning(history: seq<(string, int)>)
    ensures var t := Accumulate(EmptyTally, history);
      && NoDup(t.order)
      && (forall l :: l in t.order <==> exists i :: 0 <= i < |history| && history[i].0 == l && history[i].1 != 0)
      && forall i :: 0 <= i < |t.order| ==> Totals(t)[i] == Total(t.order[i], SumFor(history, t.order[i]))
  {
    var t := Accumulate(EmptyTally, history);
    AccumulateWellFormed(EmptyTally, history);
    forall l ensures (l in t.counts <==> exists i :: 0 <= i < |history| && history[i].0 == l && history[i].1 != 0)
                       && Get(t.counts, l) == SumFor(history, l) {
      AccumulateTotals(EmptyTally, history, l);
    }
  }

  // ---------------------------------------------------------------------------
  // Properties of the interaction messages

  lemma {:induction false} NoDupCard(s: seq<Interaction>)
    requires NoDup(s)
    ensures |ToSet(s)| == |s|
  {
    if s != [] {
      var init := s[..|s| - 1];
      var last := s[|s| - 1];
      assert NoDup(init);
      NoDupCard(init);
      assert last !in init;
      assert ToSet(s) == ToSet(init) + {last};
    }
  }

  /** A tuple active before and present now is not among the changes. */
  lemma ContinuingIsSilent(changes: seq<Interaction>, now: set<Interaction>, active: seq<Interaction>)
    requires IsEnumeration(changes, SymmetricDifference(now, ToSet(active)))
    ensures forall x :: x in now && x in active ==> x !in changes
  {
  }

  /** For any visiting order of the symmetric difference, every message is either a
      vanished tuple announced as stopped or a newly present one announced as started. */
  lemma ChangeMessagesAnnounce(changes: seq<Interaction>, now: set<Interaction>, active: seq<Interaction>)
    requires IsEnumeration(changes, SymmetricDifference(now, ToSet(active)))
    ensures forall i :: 0 <= i < |changes| ==>
              || (changes[i] in active && changes[i] !in now && ChangeMessages(changes, active)[i] == Stopped(changes[i]))
              || (changes[i] !in active && changes[i] in now && ChangeMessages(changes, active)[i] == Started(changes[i]))
  {
    forall i | 0 <= i < |changes|
      ensures || (changes[i] in active && changes[i] !in now && ChangeMessages(changes, active)[i] == Stopped(changes[i]))
              || (changes[i] !in active && changes[i] in now && ChangeMessages(changes, active)[i] == Started(changes[i]))
    {
      assert changes[i] in active <==> changes[i] in ToSet(active);
      assert changes[i] in SymmetricDifference(now, ToSet(active));
      assert ChangeMessages(changes, active)[i] == ChangeMessage(changes[i], active);
    }
  }

  /** There are exactly as many change messages as new plus vanished tuples, however
      often a tuple is repeated in the frame's list. */
  lemma ChangeMessagesCount(changes: seq<Interaction>, now: set<Interaction>, active: seq<Interaction>)
    requires IsEnumeration(changes, SymmetricDifference(now, ToSet(active)))
    ensures |ChangeMessages(changes, active)| == |now - ToSet(active)| + |ToSet(active) - now|
  {
    NoDupCard(changes);
    assert ToSet(changes) == SymmetricDifference(now, ToSet(active));
    assert (now - ToSet(active)) * (ToSet(active) - now) == {};
  }

  /** An enumeration has exactly the size of the set it enumerates. */
  lemma EnumerationSize(changes: seq<Interaction>, s: set<Interaction>)
    requires IsEnumeration(changes, s)
    ensures |changes| == |s|
  {
    NoDupCard(changes);
    assert ToSet(changes) == s;
  }

  lemma EnumerationOfOne(changes: seq<Interaction>, x: Interaction)
    requires IsEnumeration(changes, {x})
    ensures changes == [x]
  {
    EnumerationSize(changes, {x});
    assert changes[0] in changes;
  }

  // ---------------------------------------------------------------------------
  // Worked runs

  /** An interaction that appears in one frame, persists in the next (listed twice) and
      is absent in a third: announced when it appears, silent while it persists,
      announced as stopped when it vanishes. */
  method InteractionAppearsPersistsVanishes(x: Interaction, t0: int, t1: int, t2: int) returns (printed: seq<string>)
    ensures printed == [Stamp(t0, Render(Started(x))), Stamp(t2, Render(Stopped(x)))]
  {
    var log := new EventLog();
    var none: seq<Interaction> := [];
    ghost var before := log.currentInteractions;
    assert SymmetricDifference(ToSet([x]), ToSet(before)) == {x};
    log.UpdateState(t0, StateDelta([x], []));
    OneChangeLogged(log.out, Output([], []), t0, x, before);
    assert log.out.printed == [Stamp(t0, Render(Started(x)))];

    before := log.currentInteractions;
    assert SymmetricDifference(ToSet([x, x]), ToSet(before)) == {} by {
      assert ToSet(before) == {x};
    }
    ghost var first := log.out;
    log.UpdateState(t1, StateDelta([x, x], []));
    NoChangeLogged(log.out, first, t1, before);

    before := log.currentInteractions;
    assert SymmetricDifference(ToSet(none), ToSet(before)) == {x} by {
      assert x in before;
    }
    ghost var second := log.out;
    log.UpdateState(t2, StateDelta(none, []));
    OneChangeLogged(log.out, second, t2, x, before);
    printed := log.out.printed;
  }

  /** A frame with no new instances whose one interaction change is x logs one line. */
  lemma OneChangeLogged(now: Output, prior: Output, t: int, x: Interaction, active: seq<Interaction>)
    requires exists c :: IsEnumeration(c, {x}) && now == EmitAll(prior, false, Lines(t, CountMessages(EmptyTally, []) + ChangeMessages(c, active)))
    ensures now.printed == prior.printed + [Stamp(t, Render(if x in active then Stopped(x) else Started(x)))]
  {
    var c :| IsEnumeration(c, {x}) && now == EmitAll(prior, false, Lines(t, CountMessages(EmptyTally, []) + ChangeMessages(c, active)));
    EnumerationOfOne(c, x);
    assert CountMessages(EmptyTally, []) + ChangeMessages(c, active) == [ChangeMessage(x, active)];
    LinesOne(t, ChangeMessage(x, active));
  }

  /** A frame with no new instances and no interaction change logs nothing. */
  lemma NoChangeLogged(now: Output, prior: Output, t: int, active: seq<Interaction>)
    requires exists c :: IsEnumeration(c, {}) && now == EmitAll(prior, false, Lines(t, CountMessages(EmptyTally, []) + ChangeMessages(c, active)))
    ensures now == prior
  {
    var c :| IsEnumeration(c, {}) && now == EmitAll(prior, false, Lines(t, CountMessages(EmptyTally, []) + ChangeMessages(c, active)));
    EnumerationSize(c, {});
    assert CountMessages(EmptyTally, []) + ChangeMessages(c, active) == [];
  }

  /** A frame reporting n new instances of a label, then closing the log: the instance
      message carries the total n, and the summary line reports n, stamped with the same
      frame. */
  method TotalIsReportedOnExit(obj: string, n: int, t: int) returns (printed: seq<string>)
    requires n != 0
    ensures printed == [Stamp(t, Render(InstanceCount(n, obj, n))), Stamp(t, Render(Total(obj, n)))]
  {
    var log := new EventLog(None);
    var none: seq<Interaction> := [];
    assert SymmetricDifference(ToSet(none), ToSet(none)) == {};
    var items := [(obj, n)];
    log.UpdateState(t, StateDelta(none, items));
    assert log.out.printed == [Stamp(t, Render(InstanceCount(n, obj, n)))] by {
      ghost var c :| IsEnumeration(c, {})
                     && log.out == EmitAll(Output([], []), false, Lines(t, CountMessages(EmptyTally, items) + ChangeMessages(c, none)));
      EnumerationSize(c, {});
      assert items[..0] == [];
      assert Accumulate(EmptyTally, items) == Tally(map[obj := n], [obj]);
      assert CountMessages(EmptyTally, items) + ChangeMessages(c, none) == [InstanceCount(n, obj, n)];
      LinesOne(t, InstanceCount(n, obj, n));
    }
    ghost var first := log.out;
    log.Exit();
    assert log.out.printed == first.printed + [Stamp(t, Render(Total(obj, n)))] by {
      assert Totals(log.newInstanceCounts) == [Total(obj, n)];
      LinesOne(t, Total(obj, n));
    }
    printed := log.out.printed;
  }
}
