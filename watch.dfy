/**
 * The watch handler (src/sync/watch.ts): every raw file-system event is
 * parsed into a file descriptor and handed to the transform, with the kind
 * the event name implies. The classifier that `parseFile` builds and the
 * dispatcher that `transforms` builds are foreign: the classifier is a
 * function value that may throw, and the calls into the dispatcher are
 * recorded in order.
 */
module Watch {
  import opened Wrappers

  /** `Events.Update` and `Events.Delete`. */
  datatype EventKind = Update | Delete

  /** The kind of a raw event: `change` and `add` update, every other name deletes. */
  function KindOf(event: string): (k: EventKind)
    ensures k == Update <==> (event == "change" || event == "add")
  {
    if event == "change" || event == "add" then Update else Delete
  }

  /** An event as the watcher reports it: its name and the path it concerns. */
  datatype RawEvent = RawEvent(name: string, path: string)

  /** One call the handler makes: into the classifier, or into the transform. */
  datatype Step<F> = Parsed(path: string) | Transformed(kind: EventKind, file: F)

  /**
   * The calls made for one event: classify its path, then transform the
   * result. When the classifier throws, the handler's promise rejects
   * before the transform is reached.
   */
  function EventSteps<F, E>(parse: string -> Result<F, E>, e: RawEvent): seq<Step<F>> {
    match parse(e.path)
    case Failure(_) => [Parsed(e.path)]
    case Success(file) => [Parsed(e.path), Transformed(KindOf(e.name), file)]
  }

  /** The calls made for a run of events, in order. */
  function Steps<F, E>(parse: string -> Result<F, E>, events: seq<RawEvent>): seq<Step<F>>
    decreases |events|
  {
    if |events| == 0 then []
    else Steps(parse, events[..|events| - 1]) + EventSteps(parse, events[|events| - 1])
  }

  /** Every event's path is classified by the classifier. */
  predicate AllClassified<F, E>(parse: string -> Result<F, E>, events: seq<RawEvent>) {
    forall i :: 0 <= i < |events| ==> parse(events[i].path).Success?
  }

  /**
   * When every path classifies, event `i` is handled by calls `2i` and
   * `2i + 1`: its path is classified, then the transform is called with the
   * derived kind and that descriptor.
   */
  lemma {:induction false} StepsShape<F, E>(parse: string -> Result<F, E>, events: seq<RawEvent>)
    requires AllClassified(parse, events)
    ensures |Steps(parse, events)| == 2 * |events|
    ensures forall i :: 0 <= i < |events| ==>
      Steps(parse, events)[2 * i] == Parsed(events[i].path)
      && Steps(parse, events)[2 * i + 1] == Transformed(KindOf(events[i].name), parse(events[i].path).value)
    decreases |events|
  {
    if |events| > 0 {
      var init := events[..|events| - 1];
      forall i | 0 <= i < |init|
        ensures init[i] == events[i]
      {
      }
      StepsShape(parse, init);
    }
  }

  /** The transform calls in a sequence of steps. */
  function Transforms<F>(t: seq<Step<F>>): seq<(EventKind, F)>
    decreases |t|
  {
    if |t| == 0 then []
    else Transforms(t[..|t| - 1]) + (if t[|t| - 1].Transformed? then [(t[|t| - 1].kind, t[|t| - 1].file)] else [])
  }

  /** The classifier calls in a sequence of steps. */
  function Parses<F>(t: seq<Step<F>>): seq<string>
    decreases |t|
  {
    if |t| == 0 then []
    else Parses(t[..|t| - 1]) + (if t[|t| - 1].Parsed? then [t[|t| - 1].path] else [])
  }

  /**
   * One more event adds one classifier call on its path, and a transform
   * call with its kind and descriptor exactly when the path classifies.
   */
  lemma StepsExtend<F, E>(parse: string -> Result<F, E>, events: seq<RawEvent>, e: RawEvent)
    ensures Parses(Steps(parse, events + [e])) == Parses(Steps(parse, events)) + [e.path]
    ensures Transforms(Steps(parse, events + [e])) == Transforms(Steps(parse, events))
      + (if parse(e.path).Success? then [(KindOf(e.name), parse(e.path).value)] else [])
  {
    var all := events + [e];
    assert all[..|all| - 1] == events && all[|all| - 1] == e;
    var t := Steps(parse, all);
    var s0 := Steps(parse, events);
    if parse(e.path).Success? {
      assert t == s0 + [Parsed(e.path)] + [Transformed(KindOf(e.name), parse(e.path).value)];
      assert t[..|t| - 1] == s0 + [Parsed(e.path)];
      assert (s0 + [Parsed(e.path)])[..|s0|] == s0;
    } else {
      assert t == s0 + [Parsed(e.path)];
      assert t[..|t| - 1] == s0;
    }
  }

  /** Over a run of events the classifier is called exactly once per event, on its path, in order. */
  lemma {:induction false} OneParsePerEvent<F, E>(parse: string -> Result<F, E>, events: seq<RawEvent>)
    ensures |Parses(Steps(parse, events))| == |events|
    ensures forall i :: 0 <= i < |events| ==> Parses(Steps(parse, events))[i] == events[i].path
    decreases |events|
  {
    if |events| > 0 {
      var init := events[..|events| - 1];
      assert events == init + [events[|events| - 1]];
      OneParsePerEvent(parse, init);
      StepsExtend(parse, init, events[|events| - 1]);
    }
  }

  /**
   * An event whose path does not classify makes no transform call; the
   * events before and after it are handled as usual.
   */
  lemma UnclassifiedNotTransformed<F, E>(parse: string -> Result<F, E>, events: seq<RawEvent>, e: RawEvent)
    requires parse(e.path).Failure?
    ensures Transforms(Steps(parse, events + [e])) == Transforms(Steps(parse, events))
  {
    StepsExtend(parse, events, e);
  }

  /**
   * When every path classifies, the transform is called exactly once per
   * event, in event order, with the derived kind and the descriptor.
   */
  lemma {:induction false} OneTransformPerEvent<F, E>(parse: string -> Result<F, E>, events: seq<RawEvent>)
    requires AllClassified(parse, events)
    ensures |Transforms(Steps(parse, events))| == |events|
    ensures forall i :: 0 <= i < |events| ==>
      Transforms(Steps(parse, events))[i] == (KindOf(events[i].name), parse(events[i].path).value)
    decreases |events|
  {
    if |events| > 0 {
      var init := events[..|events| - 1];
      assert events == init + [events[|events| - 1]];
      forall i | 0 <= i < |init|
        ensures init[i] == events[i]
      {
      }
      OneTransformPerEvent(parse, init);
      StepsExtend(parse, init, events[|events| - 1]);
    }
  }

  /**
   * A running watcher: the classifier it built at start-up, shared by every
   * event, and the calls its handler has made so far.
   */
  class Watcher<F, E> {
    const parse: string -> Result<F, E>
    var steps: seq<Step<F>>

    /** `watch`: builds the classifier once, from the configured paths and output directory. */
    constructor<P>(paths: P, output: string, parseFile: (P, string) -> (string -> Result<F, E>))
      ensures forall path :: parse(path) == parseFile(paths, output)(path)
      ensures steps == []
    {
      parse := parseFile(paths, output);
      steps := [];
    }

    /** The `'all'` handler for one event; a throwing classifier ends it before the transform. */
    method OnEvent(e: RawEvent)
      modifies this
      ensures steps == old(steps) + EventSteps(parse, e)
    {
      var file := parse(e.path);
      steps := steps + [Parsed(e.path)];
      if file.Failure? {
        return;
      }
      var kind := KindOf(e.name);
      steps := steps + [Transformed(kind, file.value)];
    }

    /** The handler run on each event of a stream, one after the other. */
    method OnEvents(events: seq<RawEvent>)
      modifies this
      ensures steps == old(steps) + Steps(parse, events)
    {
      var i := 0;
      while i < |events|
        invariant 0 <= i <= |events|
        invariant steps == old(steps) + Steps(parse, events[..i])
      {
        OnEvent(events[i]);
        assert events[..i + 1][..i] == events[..i];
        i := i + 1;
      }
      assert events[..i] == events;
    }
  }
}
