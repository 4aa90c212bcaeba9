/**
 * `MetricDataManager`: one directory of JSON files per metric, one file per
 * scored instance. The directory is a map from file name to what reading
 * that file yields; `os.listdir` is a `listing` of the names, in whatever
 * order the file system gives them, passed to each operation that lists.
 */
module Store {
  import opened Wrappers
  import opened Text

  /**
   * One saved instance, as the JSON object holds it; None is a missing key
   * (and, for `gold`, `score` and `user_score`, also `null`). A `null`
   * datetime is not modelled.
   */
  datatype Instance = Instance(input: string, prediction: string, gold: Option<string>,
                               score: Option<real>, userScore: Option<real>, datetime: Option<string>)

  /** A directory entry: a JSON file that parses to an instance, or one that cannot be read. */
  datatype Entry = Record(instance: Instance) | Unreadable

  /** The `dspy.Example` built for a labelled instance. */
  datatype Example = Example(input: string, prediction: string, gold: Option<string>, userScore: real)

  /** `os.listdir` gives every name of the directory exactly once. */
  predicate IsListing(listing: seq<string>, files: map<string, Entry>) {
    (forall i, j :: 0 <= i < j < |listing| ==> listing[i] != listing[j])
    && (forall n :: n in listing ==> n in files)
    && (forall n :: n in files ==> n in listing)
  }

  // ---------------------------------------------------------------------------
  // save_instance

  /** The file name of an instance saved at `datetime`: `:` and `.` become `-`, then `.json`. */
  function FileName(datetime: string): (r: string)
    ensures |r| == |datetime| + 5 && EndsWith(r, ".json")
    ensures forall k :: 0 <= k < |datetime| ==> r[k] != ':' && r[k] != '.'
    ensures forall k :: 0 <= k < |datetime| ==>
              r[k] == (if datetime[k] == ':' || datetime[k] == '.' then '-' else datetime[k])
  {
    ReplaceChar(ReplaceChar(datetime, ':', '-'), '.', '-') + ".json"
  }

  /** The record `save_instance` writes: no user score yet, stamped with the save time. */
  function NewInstance(input: string, prediction: string, gold: Option<string>, score: Option<real>,
                       now: string): (r: Instance)
    ensures r.userScore.None? && r.datetime == Some(now)
  {
    Instance(input, prediction, gold, score, None, Some(now))
  }

  // ---------------------------------------------------------------------------
  // load_instances

  /** `x.get("datetime", "")`, the sort key. */
  function SortKey(x: Instance): string {
    x.datetime.GetOr("")
  }

  predicate SortedByDatetime(xs: seq<Instance>) {
    forall i, j :: 0 <= i < j < |xs| ==> StrLe(SortKey(xs[i]), SortKey(xs[j]))
  }

  /** The instance a listed name yields, if it is a readable `.json` file. */
  function ReadAt(files: map<string, Entry>, name: string): Option<Instance> {
    if EndsWith(name, ".json") && name in files && files[name].Record? then Some(files[name].instance)
    else None
  }

  /** The instances of the listed `.json` files that could be read, in listing order. */
  function Readables(files: map<string, Entry>, listing: seq<string>): (r: seq<Instance>)
    ensures |r| <= |listing|
  {
    if listing == [] then []
    else
      var name := listing[|listing| - 1];
      Readables(files, listing[..|listing| - 1])
      + (if ReadAt(files, name).Some? then [ReadAt(files, name).value] else [])
  }

  /** Inserts `x` before the first element whose key is not below its own. */
  function Insert(x: Instance, ys: seq<Instance>): (r: seq<Instance>)
    ensures |r| == |ys| + 1
  {
    if ys == [] then [x]
    else if StrLe(SortKey(x), SortKey(ys[0])) then [x] + ys
    else [ys[0]] + Insert(x, ys[1..])
  }

  /** `sorted(xs, key=...)`: a stable insertion sort on the datetime key. */
  function SortByDatetime(xs: seq<Instance>): (r: seq<Instance>)
    ensures |r| == |xs|
  {
    if xs == [] then [] else Insert(xs[0], SortByDatetime(xs[1..]))
  }

  /** What `load_instances` returns. */
  function Loaded(files: map<string, Entry>, listing: seq<string>): (r: seq<Instance>)
    ensures |r| == |Readables(files, listing)| <= |listing|
  {
    SortByDatetime(Readables(files, listing))
  }

  // ---------------------------------------------------------------------------
  // update_user_score

  /** The listed file is the instance with this datetime. */
  predicate Matches(files: map<string, Entry>, name: string, datetime: string) {
    ReadAt(files, name).Some? && ReadAt(files, name).value.datetime == Some(datetime)
  }

  /** The first listed file holding the instance with this datetime. */
  function FirstMatch(files: map<string, Entry>, listing: seq<string>, datetime: string): (r: Option<string>)
    ensures r.None? <==> forall k :: 0 <= k < |listing| ==> !Matches(files, listing[k], datetime)
    ensures r.Some? ==> exists k :: 0 <= k < |listing| && listing[k] == r.value && Matches(files, r.value, datetime)
                                    && forall m :: 0 <= m < k ==> !Matches(files, listing[m], datetime)
  {
    if listing == [] then None
    else if Matches(files, listing[0], datetime) then Some(listing[0])
    else
      var r := FirstMatch(files, listing[1..], datetime);
      assert forall k :: 0 < k < |listing| ==> listing[k] == listing[1..][k - 1];
      r
  }

  /** The directory after `update_user_score(datetime, score)`. */
  function AfterUpdate(files: map<string, Entry>, listing: seq<string>, datetime: string, score: real)
    : (r: map<string, Entry>)
    ensures r.Keys == files.Keys
    ensures forall n :: n in files && r[n] != files[n] ==> FirstMatch(files, listing, datetime) == Some(n)
    ensures FirstMatch(files, listing, datetime).Some? ==>
              var n := FirstMatch(files, listing, datetime).value;
              r[n].Record? && r[n].instance == files[n].instance.(userScore := Some(score))
  {
    match FirstMatch(files, listing, datetime)
    case None => files
    case Some(n) => files[n := Record(files[n].instance.(userScore := Some(score)))]
  }

  // ---------------------------------------------------------------------------
  // get_labeled_dataset

  function ToExample(x: Instance): Example
    requires x.userScore.Some?
  {
    Example(x.input, x.prediction, x.gold, x.userScore.value)
  }

  /** The examples of the instances with a user score, in their order. */
  function Labeled(xs: seq<Instance>): (r: seq<Example>)
    ensures |r| <= |xs|
  {
    if xs == [] then []
    else
      var last := xs[|xs| - 1];
      Labeled(xs[..|xs| - 1]) + (if last.userScore.Some? then [ToExample(last)] else [])
  }

  /** `[i for i in instances if i.get("user_score") is None]`. */
  function Unlabeled(xs: seq<Instance>): (r: seq<Instance>)
    ensures forall k :: 0 <= k < |r| ==> r[k].userScore.None?
    ensures forall x :: x in r <==> x in xs && x.userScore.None?
  {
    if xs == [] then []
    else
      var last := xs[|xs| - 1];
      assert xs == xs[..|xs| - 1] + [last];
      Unlabeled(xs[..|xs| - 1]) + (if last.userScore.None? then [last] else [])
  }

  /** One `update_user_score(datetime, score)` call. */
  datatype Update = Update(datetime: string, score: real)

  class MetricDataManager {
    const metricName: string
    var files: map<string, Entry>
    /** The `update_user_score` calls made on this manager, oldest first. */
    ghost var calls: seq<Update>

    /** A manager over the metric's directory, which may already hold files. */
    constructor (metricName: string, existing: map<string, Entry>)
      ensures this.metricName == metricName && files == existing && calls == []
    {
      this.metricName := metricName;
      files := existing;
      calls := [];
    }

    /** `save_instance`: writes (or overwrites) the file named after the save time. */
    method SaveInstance(input: string, prediction: string, gold: Option<string>, score: Option<real>,
                        now: string) returns (filename: string)
      modifies this
      ensures filename == FileName(now)
      ensures files == old(files)[filename := Record(NewInstance(input, prediction, gold, score, now))]
      ensures calls == old(calls)
    {
      var instance := NewInstance(input, prediction, gold, score, now);
      var timestamp := ReplaceChar(ReplaceChar(now, ':', '-'), '.', '-');
      filename := timestamp + ".json";
      files := files[filename := Record(instance)];
    }

    /** `load_instances`: reads the listed `.json` files, skips unreadable ones, sorts by datetime. */
    method LoadInstances(listing: seq<string>) returns (instances: seq<Instance>)
      ensures instances == Loaded(files, listing)
    {
      var found := [];
      for k := 0 to |listing|
        invariant found == Readables(files, listing[..k])
      {
        assert listing[..k + 1][..k] == listing[..k];
        var name := listing[k];
        if EndsWith(name, ".json") && name in files && files[name].Record? {
          found := found + [files[name].instance];
        }
      }
      assert listing[..|listing|] == listing;
      instances := SortByDatetime(found);
    }

    /**
     * `update_user_score`: sets the user score of the first listed record with
     * this datetime and reports whether there was one.
     */
    method UpdateUserScore(listing: seq<string>, datetime: string, userScore: real) returns (updated: bool)
      modifies this
      ensures updated <==> FirstMatch(old(files), listing, datetime).Some?
      ensures files == AfterUpdate(old(files), listing, datetime, userScore)
      ensures calls == old(calls) + [Update(datetime, userScore)]
    {
      calls := calls + [Update(datetime, userScore)];
      for k := 0 to |listing|
        invariant files == old(files)
        invariant FirstMatch(files, listing, datetime) == FirstMatch(files, listing[k..], datetime)
      {
        assert listing[k..][1..] == listing[k + 1..];
        var name := listing[k];
        if EndsWith(name, ".json") && name in files && files[name].Record? {
          var instance := files[name].instance;
          if instance.datetime == Some(datetime) {
            files := files[name := Record(instance.(userScore := Some(userScore)))];
            return true;
          }
        }
      }
      assert listing[|listing|..] == [];
      return false;
    }

    /** `get_labeled_dataset`: the loaded instances that carry a user score, as examples. */
    method GetLabeledDataset(listing: seq<string>) returns (dataset: seq<Example>)
      ensures dataset == Labeled(Loaded(files, listing))
    {
      var instances := LoadInstances(listing);
      dataset := [];
      for k := 0 to |instances|
        invariant dataset == Labeled(instances[..k])
      {
        assert instances[..k + 1][..k] == instances[..k];
        var instance := instances[k];
        if instance.userScore.Some? {
          dataset := dataset + [ToExample(instance)];
        }
      }
      assert instances[..|instances|] == instances;
    }
  }

  // ---------------------------------------------------------------------------
  // Sorting

  lemma {:induction false} InsertPermutes(x: Instance, ys: seq<Instance>)
    ensures multiset(Insert(x, ys)) == multiset(ys) + multiset{x}
  {
    if ys != [] && !StrLe(SortKey(x), SortKey(ys[0])) {
      InsertPermutes(x, ys[1..]);
      assert ys == [ys[0]] + ys[1..];
    }
  }

  /** Every key of `Insert(x, ys)` is at least `k` when that holds of `x` and of `ys`. */
  lemma {:induction false} InsertAbove(k: string, x: Instance, ys: seq<Instance>)
    requires StrLe(k, SortKey(x))
    requires forall i :: 0 <= i < |ys| ==> StrLe(k, SortKey(ys[i]))
    ensures forall i :: 0 <= i < |Insert(x, ys)| ==> StrLe(k, SortKey(Insert(x, ys)[i]))
  {
    if ys != [] && !StrLe(SortKey(x), SortKey(ys[0])) {
      InsertAbove(k, x, ys[1..]);
    }
  }

  lemma {:induction false} InsertSorted(x: Instance, ys: seq<Instance>)
    requires SortedByDatetime(ys)
    ensures SortedByDatetime(Insert(x, ys))
  {
    if ys == [] {
    } else if StrLe(SortKey(x), SortKey(ys[0])) {
      forall j | 0 < j < |ys| + 1 ensures StrLe(SortKey(x), SortKey(([x] + ys)[j])) {
        if j > 1 {
          StrLeTransitive(SortKey(x), SortKey(ys[0]), SortKey(ys[j - 1]));
        }
      }
    } else {
      StrLeTotal(SortKey(x), SortKey(ys[0]));
      InsertSorted(x, ys[1..]);
      InsertAbove(SortKey(ys[0]), x, ys[1..]);
    }
  }

  /** `sorted` returns a non-decreasing rearrangement of its input. */
  lemma {:induction false} SortByDatetimeCorrect(xs: seq<Instance>)
    ensures SortedByDatetime(SortByDatetime(xs))
    ensures multiset(SortByDatetime(xs)) == multiset(xs)
  {
    if xs != [] {
      SortByDatetimeCorrect(xs[1..]);
      InsertSorted(xs[0], SortByDatetime(xs[1..]));
      InsertPermutes(xs[0], SortByDatetime(xs[1..]));
      assert xs == [xs[0]] + xs[1..];
    }
  }

  // ---------------------------------------------------------------------------
  // Properties of the store

  /** A listed name contributes its instance exactly when it is a readable `.json` file. */
  lemma {:induction false} ReadablesMembers(files: map<string, Entry>, listing: seq<string>)
    ensures forall x :: x in Readables(files, listing) <==>
              exists k :: 0 <= k < |listing| && ReadAt(files, listing[k]) == Some(x)
  {
    if listing != [] {
      var init := listing[..|listing| - 1];
      ReadablesMembers(files, init);
      assert forall k :: 0 <= k < |init| ==> init[k] == listing[k];
    }
  }

  /** The readable `.json` files of the directory that hold the instance `x`. */
  function FilesHolding(files: map<string, Entry>, x: Instance): set<string> {
    set n | n in files && ReadAt(files, n) == Some(x)
  }

  /** Over a listing without repeats, each instance occurs once per listed file that holds it. */
  lemma {:induction false} ReadablesCount(files: map<string, Entry>, listing: seq<string>, x: Instance)
    requires forall i, j :: 0 <= i < j < |listing| ==> listing[i] != listing[j]
    ensures multiset(Readables(files, listing))[x] == |set n | n in listing && ReadAt(files, n) == Some(x)|
  {
    if listing != [] {
      var init := listing[..|listing| - 1];
      var last := listing[|listing| - 1];
      assert forall i :: 0 <= i < |init| ==> init[i] == listing[i];
      ReadablesCount(files, init, x);
      assert forall k :: 0 <= k < |init| ==> init[k] != last;
      assert listing == init + [last];
      HoldersStep(files, init, last, x);
      var tail := if ReadAt(files, last).Some? then [ReadAt(files, last).value] else [];
      assert Readables(files, listing) == Readables(files, init) + tail;
      assert multiset(tail)[x] == if ReadAt(files, last) == Some(x) then 1 else 0;
    }
  }

  /** Listing one more name adds one holder of `x` exactly when that file holds `x`. */
  lemma HoldersStep(files: map<string, Entry>, init: seq<string>, last: string, x: Instance)
    requires last !in init
    ensures |set n | n in init + [last] && ReadAt(files, n) == Some(x)|
            == |set n | n in init && ReadAt(files, n) == Some(x)| + if ReadAt(files, last) == Some(x) then 1 else 0
  {
    var before := set n | n in init && ReadAt(files, n) == Some(x);
    var after := set n | n in init + [last] && ReadAt(files, n) == Some(x);
    if ReadAt(files, last) == Some(x) {
      assert after == before + {last};
    } else {
      assert after == before;
    }
  }

  /**
   * `load_instances` returns every readable `.json` record of the directory
   * and nothing else, each as many times as there are files holding it,
   * sorted non-decreasing by datetime (a missing datetime sorting as the
   * empty string).
   */
  lemma LoadedContents(files: map<string, Entry>, listing: seq<string>)
    requires IsListing(listing, files)
    ensures SortedByDatetime(Loaded(files, listing))
    ensures forall x :: x in Loaded(files, listing) <==>
              exists n :: n in files && EndsWith(n, ".json") && files[n] == Record(x)
    ensures forall x :: multiset(Loaded(files, listing))[x] == |FilesHolding(files, x)|
  {
    SortByDatetimeCorrect(Readables(files, listing));
    ReadablesMembers(files, listing);
    forall x ensures multiset(Loaded(files, listing))[x] == |FilesHolding(files, x)| {
      ReadablesCount(files, listing, x);
      assert (set n | n in listing && ReadAt(files, n) == Some(x)) == FilesHolding(files, x);
    }
    forall x ensures x in Loaded(files, listing) <==> x in Readables(files, listing) {
      assert x in Loaded(files, listing) <==> x in multiset(Loaded(files, listing));
    }
    forall x | exists n :: n in files && EndsWith(n, ".json") && files[n] == Record(x)
      ensures exists k :: 0 <= k < |listing| && ReadAt(files, listing[k]) == Some(x)
    {
      var n :| n in files && EndsWith(n, ".json") && files[n] == Record(x);
      assert n in listing;
      var k :| 0 <= k < |listing| && listing[k] == n;
      assert ReadAt(files, listing[k]) == Some(x);
    }
  }

  /** A freshly saved instance is found again by its datetime. */
  lemma SavedIsFound(files: map<string, Entry>, listing: seq<string>, input: string, prediction: string,
                     gold: Option<string>, score: Option<real>, now: string)
    requires IsListing(listing, files[FileName(now) := Record(NewInstance(input, prediction, gold, score, now))])
    ensures var saved := files[FileName(now) := Record(NewInstance(input, prediction, gold, score, now))];
            FirstMatch(saved, listing, now).Some?
  {
    var saved := files[FileName(now) := Record(NewInstance(input, prediction, gold, score, now))];
    var name := FileName(now);
    assert name in listing;
    var k :| 0 <= k < |listing| && listing[k] == name;
    assert Matches(saved, listing[k], now);
  }

  /** A freshly saved instance is loaded, and it is still unlabelled. */
  lemma SavedIsLoaded(files: map<string, Entry>, listing: seq<string>, input: string, prediction: string,
                      gold: Option<string>, score: Option<real>, now: string)
    requires IsListing(listing, files[FileName(now) := Record(NewInstance(input, prediction, gold, score, now))])
    ensures var saved := files[FileName(now) := Record(NewInstance(input, prediction, gold, score, now))];
            NewInstance(input, prediction, gold, score, now) in Loaded(saved, listing)
  {
    var saved := files[FileName(now) := Record(NewInstance(input, prediction, gold, score, now))];
    LoadedContents(saved, listing);
    assert saved[FileName(now)] == Record(NewInstance(input, prediction, gold, score, now));
  }

  /** An update changes no datetime, so it leaves every match where it was. */
  lemma {:induction false} FirstMatchAfterUpdate(files: map<string, Entry>, listing: seq<string>,
                                                 datetime: string, score: real, other: string)
    ensures FirstMatch(AfterUpdate(files, listing, datetime, score), listing, other) ==
            FirstMatch(files, listing, other)
  {
    var after := AfterUpdate(files, listing, datetime, score);
    forall n ensures Matches(after, n, other) <==> Matches(files, n, other) {
      if n in files && after[n] != files[n] {
        assert after[n].instance.datetime == files[n].instance.datetime;
      }
    }
    FirstMatchSame(files, after, listing, other);
  }

  lemma {:induction false} FirstMatchSame(f1: map<string, Entry>, f2: map<string, Entry>, listing: seq<string>,
                                          datetime: string)
    requires forall n :: Matches(f1, n, datetime) <==> Matches(f2, n, datetime)
    ensures FirstMatch(f1, listing, datetime) == FirstMatch(f2, listing, datetime)
  {
    if listing != [] {
      FirstMatchSame(f1, f2, listing[1..], datetime);
    }
  }

  /** Entering the same score twice for the same datetime leaves the store as entering it once. */
  lemma UpdateIdempotent(files: map<string, Entry>, listing: seq<string>, datetime: string, score: real)
    ensures var once := AfterUpdate(files, listing, datetime, score);
            AfterUpdate(once, listing, datetime, score) == once
  {
    FirstMatchAfterUpdate(files, listing, datetime, score, datetime);
  }

  /** Labelling keeps the order: the labelled part of a concatenation is the concatenation of the parts. */
  lemma {:induction false} LabeledAppend(xs: seq<Instance>, ys: seq<Instance>)
    ensures Labeled(xs + ys) == Labeled(xs) + Labeled(ys)
  {
    if ys == [] {
      assert xs + ys == xs;
    } else {
      var init := ys[..|ys| - 1];
      assert (xs + ys)[..|xs + ys| - 1] == xs + init;
      assert (xs + ys)[|xs + ys| - 1] == ys[|ys| - 1];
      LabeledAppend(xs, init);
    }
  }

  /** The unlabelled filter keeps the order: it distributes over concatenation. */
  lemma {:induction false} UnlabeledAppend(xs: seq<Instance>, ys: seq<Instance>)
    ensures Unlabeled(xs + ys) == Unlabeled(xs) + Unlabeled(ys)
  {
    if ys == [] {
      assert xs + ys == xs;
    } else {
      var init := ys[..|ys| - 1];
      assert (xs + ys)[..|xs + ys| - 1] == xs + init;
      assert (xs + ys)[|xs + ys| - 1] == ys[|ys| - 1];
      UnlabeledAppend(xs, init);
    }
  }

  /**
   * Every instance is either labelled or not: the two lists split the
   * loaded list, the labelled list is never longer, and it is as long
   * exactly when every instance carries a user score.
   */
  lemma {:induction false} LabeledCount(xs: seq<Instance>)
    ensures |Labeled(xs)| + |Unlabeled(xs)| == |xs|
    ensures |Labeled(xs)| <= |xs|
    ensures |Labeled(xs)| == |xs| <==> forall k :: 0 <= k < |xs| ==> xs[k].userScore.Some?
  {
    if xs != [] {
      var init := xs[..|xs| - 1];
      LabeledCount(init);
      assert forall k :: 0 <= k < |init| ==> init[k] == xs[k];
      if xs[|xs| - 1].userScore.None? {
        assert |Labeled(xs)| < |xs|;
      }
    }
  }

  /** The labelled examples are exactly those built from the instances that carry a user score. */
  lemma {:induction false} LabeledMembers(xs: seq<Instance>)
    ensures forall e :: e in Labeled(xs) <==>
              exists k :: 0 <= k < |xs| && xs[k].userScore.Some? && ToExample(xs[k]) == e
  {
    if xs != [] {
      var init := xs[..|xs| - 1];
      LabeledMembers(init);
      assert forall k :: 0 <= k < |init| ==> init[k] == xs[k];
    }
  }
}
