/**
 * `label_instances`: the console session that asks the user to score each
 * unlabelled instance. The user's replies are a finite sequence (running out
 * of them is `input()` raising `EOFError`), and `float` is Python's
 * `float()` on a reply, None where it raises `ValueError`.
 */
module Repl {
  import opened Wrappers
  import opened Text
  import opened Store

  /** A reply after `.strip().lower()`, as the session's `if` chain reads it. */
  datatype Command = Skip | Exit | Help | Accept(score: real) | OutOfRange | Invalid

  function Normalize(reply: string): (r: string)
    ensures |r| <= |reply|
  {
    Lower(Strip(reply))
  }

  function Classify(reply: string, float: string -> Option<real>): (c: Command)
    ensures c.Accept? ==> 0.0 <= c.score <= 1.0
  {
    var t := Normalize(reply);
    if t == "skip" then Skip
    else if t == "exit" then Exit
    else if t == "help" then Help
    else match float(t)
      case None => Invalid
      case Some(v) => if 0.0 <= v <= 1.0 then Accept(v) else OutOfRange
  }

  /** Why the pass over the unlabelled instances stopped. */
  datatype Stop = Done | Quit | OutOfInput | NoDatetime

  datatype Trace = Trace(updates: seq<Update>, stop: Stop)

  function Prepend(u: Update, t: Trace): Trace {
    Trace([u] + t.updates, t.stop)
  }

  /** `xs` occurs in `ys` in order, not necessarily contiguously. */
  predicate IsSubsequence<T(==)>(xs: seq<T>, ys: seq<T>)
    decreases |ys|
  {
    xs == [] || (ys != [] && if xs[0] == ys[0] then IsSubsequence(xs[1..], ys[1..]) else IsSubsequence(xs, ys[1..]))
  }

  function UpdatedDatetimes(us: seq<Update>): seq<Option<string>> {
    if us == [] then [] else [Some(us[0].datetime)] + UpdatedDatetimes(us[1..])
  }

  function Datetimes(xs: seq<Instance>): seq<Option<string>> {
    if xs == [] then [] else [xs[0].datetime] + Datetimes(xs[1..])
  }

  /** Each reply as the session reads it. */
  function Commands(replies: seq<string>, float: string -> Option<real>): (cs: seq<Command>)
    ensures |cs| == |replies|
    ensures forall k :: 0 <= k < |replies| ==> cs[k] == Classify(replies[k], float)
  {
    if replies == [] then [] else [Classify(replies[0], float)] + Commands(replies[1..], float)
  }

  /**
   * The `for`/`while True` loops over the unlabelled instances `items`,
   * consuming the replies (already classified): the update calls made, and
   * why it stopped.
   */
  function Label(items: seq<Instance>, commands: seq<Command>): (t: Trace)
    ensures |t.updates| <= |items|
    decreases |commands|
  {
    if items == [] then Trace([], Done)
    else if commands == [] then Trace([], OutOfInput)
    else match commands[0]
      case Skip => Label(items[1..], commands[1..])
      case Exit => Trace([], Quit)
      case Accept(v) =>
        if items[0].datetime.None? then Trace([], NoDatetime)
        else Prepend(Update(items[0].datetime.value, v), Label(items[1..], commands[1..]))
      case _ => Label(items, commands[1..])
  }

  /** How the whole session ends. */
  datatype Ending =
    | NothingToLabel
    | Exited
    | Completed(labeled: nat, total: nat)  // the closing "You have labeled n/m instances"
    | InputExhausted                        // `input()` raised `EOFError`
    | MissingDatetime                       // `instance["datetime"]` raised `KeyError`

  /** The session over the loaded instances: its update calls and its ending. */
  function Session(instances: seq<Instance>, replies: seq<string>, float: string -> Option<real>)
    : (r: (seq<Update>, Ending))
    ensures r.1 == NothingToLabel ==> r.0 == []
    ensures r.1.Completed? ==> r.1.total == |instances| && r.1.labeled == |Labeled(instances)|
  {
    var unlabeled := Unlabeled(instances);
    if unlabeled == [] then ([], NothingToLabel)
    else
      var t := Label(unlabeled, Commands(replies, float));
      (t.updates, EndingOf(t.stop, instances))
  }

  /** The ending of a pass that stopped for `stop`; the closing count is over all `instances`. */
  function EndingOf(stop: Stop, instances: seq<Instance>): (r: Ending)
    ensures r.Completed? <==> stop == Done
    ensures r.Completed? ==> r.total == |instances| && r.labeled == |Labeled(instances)| <= |instances|
  {
    match stop
    case Done => Completed(|Labeled(instances)|, |instances|)
    case Quit => Exited
    case OutOfInput => InputExhausted
    case NoDatetime => MissingDatetime
  }

  /** The directory after the update calls, made one after the other. */
  function ApplyUpdates(files: map<string, Entry>, listing: seq<string>, us: seq<Update>): (r: map<string, Entry>)
    ensures r.Keys == files.Keys
  {
    if us == [] then files
    else
      var last := us[|us| - 1];
      AfterUpdate(ApplyUpdates(files, listing, us[..|us| - 1]), listing, last.datetime, last.score)
  }

  /** The update calls already made, followed by what the rest of the session does. */
  function Then(done: seq<Update>, rest: Trace): Trace {
    Trace(done + rest.updates, rest.stop)
  }

  lemma ThenNothing(rest: Trace)
    ensures Then([], rest) == rest
  {
    assert [] + rest.updates == rest.updates;
  }

  lemma ThenAppend(done: seq<Update>, more: seq<Update>, rest: Trace)
    ensures Then(done + more, rest) == Then(done, Then(more, rest))
  {
    assert (done + more) + rest.updates == done + (more + rest.updates);
  }

  lemma ApplyOneMore(files: map<string, Entry>, listing: seq<string>, us: seq<Update>, more: seq<Update>)
    requires |more| <= 1
    ensures ApplyUpdates(files, listing, us + more) ==
            if more == [] then ApplyUpdates(files, listing, us)
            else AfterUpdate(ApplyUpdates(files, listing, us), listing, more[0].datetime, more[0].score)
  {
    if more == [] {
      assert us + more == us;
    } else {
      assert (us + more)[..|us + more| - 1] == us;
    }
  }

  /** `Label` on the replies from `i` on reads the command at `i` first. */
  lemma LabelStep(items: seq<Instance>, commands: seq<Command>, i: nat)
    requires items != [] && i < |commands|
    ensures Label(items, commands[i..]) ==
            match commands[i]
            case Skip => Label(items[1..], commands[i + 1..])
            case Exit => Trace([], Quit)
            case Accept(v) =>
              if items[0].datetime.None? then Trace([], NoDatetime)
              else Prepend(Update(items[0].datetime.value, v), Label(items[1..], commands[i + 1..]))
            case _ => Label(items, commands[i + 1..])
  {
    assert commands[i..][0] == commands[i] && commands[i..][1..] == commands[i + 1..];
  }

  /**
   * The `while True` loop for the current instance `items[0]`, reading the
   * replies from `pos` on, each as its command says: it makes at most one
   * update call (`done`), and either moves on to the next instance at reply
   * `next` or ends the session for `stopped`.
   */
  method AskForScore(store: MetricDataManager, listing: seq<string>, items: seq<Instance>,
                     commands: seq<Command>, pos: nat)
    returns (next: nat, stopped: Option<Stop>, ghost done: seq<Update>)
    requires items != [] && pos <= |commands|
    modifies store
    ensures next <= |commands| && |done| <= 1 && stopped != Some(Done)
    ensures stopped.None? ==> Label(items, commands[pos..]) == Then(done, Label(items[1..], commands[next..]))
    ensures stopped.Some? ==> done == [] && Label(items, commands[pos..]) == Trace([], stopped.value)
    ensures store.files == if done == [] then old(store.files)
                           else AfterUpdate(old(store.files), listing, done[0].datetime, done[0].score)
    ensures store.calls == old(store.calls) + done
  {
    var instance := items[0];
    done := [];
    next := pos;
    stopped := None;
    while true
      invariant pos <= next <= |commands|
      invariant Label(items, commands[pos..]) == Label(items, commands[next..])
      invariant done == [] && store.files == old(store.files) && store.calls == old(store.calls)
      decreases |commands| - next
    {
      if next == |commands| {
        stopped := Some(OutOfInput);
        break;
      }
      var command := commands[next];
      LabelStep(items, commands, next);
      next := next + 1;
      match command {
        case Skip =>
          ThenNothing(Label(items[1..], commands[next..]));
          break;
        case Exit =>
          stopped := Some(Quit);
          break;
        case Accept(v) =>
          if instance.datetime.None? {
            stopped := Some(NoDatetime);
          } else {
            var saved := store.UpdateUserScore(listing, instance.datetime.value, v);
            done := [Update(instance.datetime.value, v)];
          }
          break;
        case _ =>
      }
    }
  }

  /**
   * The `for` loop over the unlabelled instances, reading the replies from
   * the first on: the store's call log gains exactly the update calls of the
   * pass `Label`, and the pass stops as `Label` says.
   */
  method LabelEach(store: MetricDataManager, listing: seq<string>, unlabeled: seq<Instance>,
                   commands: seq<Command>)
    returns (stop: Stop, ghost updates: seq<Update>)
    modifies store
    ensures Label(unlabeled, commands) == Trace(updates, stop)
    ensures store.files == ApplyUpdates(old(store.files), listing, updates)
    ensures store.calls == old(store.calls) + updates
  {
    ghost var files0 := store.files;
    ghost var calls0 := store.calls;
    updates := [];
    var pos := 0;
    stop := Done;
    for idx := 0 to |unlabeled|
      invariant pos <= |commands|
      invariant Label(unlabeled, commands) == Then(updates, Label(unlabeled[idx..], commands[pos..]))
      invariant store.files == ApplyUpdates(files0, listing, updates)
      invariant store.calls == calls0 + updates
    {
      assert unlabeled[idx..][1..] == unlabeled[idx + 1..];
      var stopped;
      ghost var done;
      pos, stopped, done := AskForScore(store, listing, unlabeled[idx..], commands, pos);
      if stopped.Some? {
        assert updates + [] == updates;
        stop := stopped.value;
        break;
      }
      ThenAppend(updates, done, Label(unlabeled[idx + 1..], commands[pos..]));
      ApplyOneMore(files0, listing, updates, done);
      updates := updates + done;
    }
    assert updates + [] == updates;
  }

  /**
   * `label_instances(data_manager)`. The ghost `updates` is what the
   * store's call log gains: the `update_user_score` calls made, in order.
   */
  method LabelInstances(store: MetricDataManager, listing: seq<string>, replies: seq<string>,
                        float: string -> Option<real>)
    returns (ending: Ending, ghost updates: seq<Update>)
    modifies store
    ensures (updates, ending) == Session(old(Loaded(store.files, listing)), replies, float)
    ensures store.files == ApplyUpdates(old(store.files), listing, updates)
    ensures store.calls == old(store.calls) + updates
  {
    var instances := store.LoadInstances(listing);
    var unlabeled := Unlabeled(instances);
    if |unlabeled| == 0 {
      return NothingToLabel, [];
    }
    var commands := Commands(replies, float);
    var stop;
    stop, updates := LabelEach(store, listing, unlabeled, commands);
    match stop
    case Done =>
      var labeledCount := |Labeled(instances)|;
      ending := Completed(labeledCount, |instances|);
    case Quit => ending := Exited;
    case OutOfInput => ending := InputExhausted;
    case NoDatetime => ending := MissingDatetime;
  }

  // ---------------------------------------------------------------------------
  // Properties of the session

  lemma {:induction false} SubsequenceTail<T>(xs: seq<T>, ys: seq<T>)
    requires ys != [] && IsSubsequence(xs, ys[1..])
    ensures IsSubsequence(xs, ys)
    decreases |ys|, |xs|
  {
    if xs != [] && xs[0] == ys[0] {
      SubsequenceDrop(xs, ys[1..]);
    }
  }

  lemma {:induction false} SubsequenceDrop<T>(xs: seq<T>, ys: seq<T>)
    requires xs != [] && IsSubsequence(xs, ys)
    ensures IsSubsequence(xs[1..], ys)
    decreases |ys|, |xs|
  {
    if xs[0] == ys[0] {
      if xs[1..] != [] {
        SubsequenceTail(xs[1..], ys);
      }
    } else {
      SubsequenceDrop(xs, ys[1..]);
      SubsequenceTail(xs[1..], ys);
    }
  }

  /**
   * The updated datetimes are the datetimes of some of the instances, in
   * the order the instances were presented.
   */
  lemma {:induction false} UpdatesFollowInstances(items: seq<Instance>, commands: seq<Command>)
    ensures IsSubsequence(UpdatedDatetimes(Label(items, commands).updates), Datetimes(items))
    decreases |commands|
  {
    if items != [] && commands != [] {
      var rest := Label(items[1..], commands[1..]);
      match commands[0]
      case Skip =>
        UpdatesFollowInstances(items[1..], commands[1..]);
        SubsequenceTail(UpdatedDatetimes(rest.updates), Datetimes(items));
      case Exit =>
      case Accept(v) =>
        if items[0].datetime.Some? {
          UpdatesFollowInstances(items[1..], commands[1..]);
          var u := Update(items[0].datetime.value, v);
          assert ([u] + rest.updates)[1..] == rest.updates;
        }
      case _ =>
        UpdatesFollowInstances(items, commands[1..]);
    }
  }

  lemma {:induction false} SubsequenceDistinct<T>(xs: seq<T>, ys: seq<T>)
    requires IsSubsequence(xs, ys)
    requires forall i, j :: 0 <= i < j < |ys| ==> ys[i] != ys[j]
    ensures forall i, j :: 0 <= i < j < |xs| ==> xs[i] != xs[j]
    ensures forall i :: 0 <= i < |xs| ==> xs[i] in ys
    decreases |ys|
  {
    if xs != [] {
      if xs[0] == ys[0] {
        SubsequenceDistinct(xs[1..], ys[1..]);
        forall i | 0 < i < |xs| ensures xs[i] != xs[0] {
          assert xs[i] == xs[1..][i - 1];
          assert xs[i] in ys[1..];
        }
      } else {
        SubsequenceDistinct(xs, ys[1..]);
      }
    }
  }

  /**
   * With distinct datetimes among the presented instances, no instance is
   * updated twice and every update names one of them.
   */
  lemma NoRepeatedUpdates(items: seq<Instance>, commands: seq<Command>)
    requires forall i, j :: 0 <= i < j < |Datetimes(items)| ==> Datetimes(items)[i] != Datetimes(items)[j]
    ensures var ds := UpdatedDatetimes(Label(items, commands).updates);
            (forall i, j :: 0 <= i < j < |ds| ==> ds[i] != ds[j])
            && forall i :: 0 <= i < |ds| ==> ds[i] in Datetimes(items)
  {
    UpdatesFollowInstances(items, commands);
    SubsequenceDistinct(UpdatedDatetimes(Label(items, commands).updates), Datetimes(items));
  }

  /** A pass saves only scores that some command accepted. */
  lemma {:induction false} ScoresFromCommands(items: seq<Instance>, commands: seq<Command>)
    requires forall k :: 0 <= k < |commands| && commands[k].Accept? ==> 0.0 <= commands[k].score <= 1.0
    ensures forall u <- Label(items, commands).updates :: 0.0 <= u.score <= 1.0
    decreases |commands|
  {
    if items != [] && commands != [] {
      assert forall k :: 0 <= k < |commands[1..]| ==> commands[1..][k] == commands[k + 1];
      ScoresFromCommands(items[1..], commands[1..]);
      ScoresFromCommands(items, commands[1..]);
      var rest := Label(items[1..], commands[1..]);
      if commands[0].Accept? && items[0].datetime.Some? {
        var u := Update(items[0].datetime.value, commands[0].score);
        assert 0.0 <= u.score <= 1.0;
        assert Label(items, commands).updates == [u] + rest.updates;
      }
    }
  }

  /** Every score the session saves is in [0, 1]: out-of-range numbers are refused. */
  lemma SavedScoresInRange(instances: seq<Instance>, replies: seq<string>, float: string -> Option<real>)
    ensures var us := Session(instances, replies, float).0;
            forall k :: 0 <= k < |us| ==> 0.0 <= us[k].score <= 1.0
  {
    var cs := Commands(replies, float);
    assert forall k :: 0 <= k < |cs| ==> cs[k] == Classify(replies[k], float);
    ScoresFromCommands(Unlabeled(instances), cs);
    if Unlabeled(instances) != [] {
      assert Session(instances, replies, float).0 == Label(Unlabeled(instances), cs).updates;
    }
  }

  /** With nothing unlabelled, the session makes no update and asks nothing. */
  lemma NothingUnlabeled(instances: seq<Instance>, replies: seq<string>, float: string -> Option<real>)
    requires forall k :: 0 <= k < |instances| ==> instances[k].userScore.Some?
    ensures Session(instances, replies, float) == ([], NothingToLabel)
  {
    LabeledCount(instances);
    assert |Unlabeled(instances)| == 0;
  }

  /** Replies are matched after trimming and lower-casing: `"  SKIP\n"` is `skip`. */
  lemma ClassifyNormalized(reply: string, float: string -> Option<real>)
    ensures Classify(reply, float) == Classify(Normalize(reply), float)
  {
    NormalizeIdempotent(reply);
  }

  lemma CommandsCons(reply: string, replies: seq<string>, float: string -> Option<real>)
    ensures Commands([reply] + replies, float) == [Classify(reply, float)] + Commands(replies, float)
  {
    assert ([reply] + replies)[1..] == replies;
  }

  /** `exit` ends the session at once, with no further update. */
  lemma {:induction false} ExitStops(items: seq<Instance>, reply: string, replies: seq<string>, float: string -> Option<real>)
    requires items != [] && Normalize(reply) == "exit"
    ensures Label(items, Commands([reply] + replies, float)) == Trace([], Quit)
  {
    CommandsCons(reply, replies, float);
  }

  /** `skip` moves on to the next instance without an update. */
  lemma {:induction false} SkipMovesOn(items: seq<Instance>, reply: string, replies: seq<string>, float: string -> Option<real>)
    requires items != [] && Normalize(reply) == "skip"
    ensures Label(items, Commands([reply] + replies, float)) == Label(items[1..], Commands(replies, float))
  {
    CommandsCons(reply, replies, float);
    assert ([Classify(reply, float)] + Commands(replies, float))[1..] == Commands(replies, float);
  }

  /** `help`, an out-of-range number and a non-number keep the same instance, with no update. */
  lemma {:induction false} RetrySameInstance(items: seq<Instance>, reply: string, replies: seq<string>, float: string -> Option<real>)
    requires items != []
    requires Normalize(reply) == "help" || (Normalize(reply) !in {"skip", "exit"} &&
              (float(Normalize(reply)).None? || !(0.0 <= float(Normalize(reply)).value <= 1.0)))
    ensures Label(items, Commands([reply] + replies, float)) == Label(items, Commands(replies, float))
  {
    CommandsCons(reply, replies, float);
    assert ([Classify(reply, float)] + Commands(replies, float))[1..] == Commands(replies, float);
  }

  /** A number in [0, 1] saves exactly one score, for the current instance, and moves on. */
  lemma {:induction false} AcceptUpdatesOnce(items: seq<Instance>, reply: string, replies: seq<string>,
                          float: string -> Option<real>, v: real)
    requires items != [] && items[0].datetime.Some?
    requires var t := Normalize(reply); t != "skip" && t != "exit" && t != "help" && float(t) == Some(v)
    requires 0.0 <= v <= 1.0
    ensures Label(items, Commands([reply] + replies, float)) ==
            Prepend(Update(items[0].datetime.value, v), Label(items[1..], Commands(replies, float)))
  {
    var cs := Commands([reply] + replies, float);
    CommandsCons(reply, replies, float);
    assert cs[1..] == Commands(replies, float);
    LabelAccept(items, cs);
  }

  lemma {:induction false} LabelAccept(items: seq<Instance>, commands: seq<Command>)
    requires items != [] && items[0].datetime.Some? && commands != [] && commands[0].Accept?
    ensures Label(items, commands) ==
            Prepend(Update(items[0].datetime.value, commands[0].score), Label(items[1..], commands[1..]))
  {
  }

  /**
   * The closing count comes from the list loaded before the session: a
   * completed session reports the instances that were labelled already,
   * however many scores it saved.
   */
  lemma ClosingCountExcludesSession(instances: seq<Instance>, replies: seq<string>, float: string -> Option<real>)
    requires Session(instances, replies, float).1.Completed?
    ensures Session(instances, replies, float).1.labeled == |instances| - |Unlabeled(instances)|
  {
    LabeledCount(instances);
  }
}
