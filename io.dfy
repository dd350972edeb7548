/**
 * Deferred I/O actions and the line enumerator of `fj.data.IO`.
 *
 * A deferred action (`IO<A>`) is a function from the state of the world to a
 * result: a value or an I/O error, together with the world afterwards. The
 * world holds the files that can be opened (their lines, terminators
 * stripped) and every buffered reader opened so far, with its cursor and
 * whether it has been closed. Building an action touches nothing; only
 * applying it to a world does.
 */
module IO {

  import opened Options
  import opened Iteratee

  /** A text file: its lines, and whether reading past the last line fails with an I/O error. */
  datatype File = File(lines: seq<string>, readFault: bool)

  /** A buffered reader on a file: the index of the next line, and whether it is still open. */
  datatype Reader = Reader(file: File, pos: nat, open: bool)

  /** The files that exist, and the readers opened so far (a reader's handle is its index). */
  datatype World = World(files: map<string, File>, readers: seq<Reader>)

  type Handle = nat

  datatype IOError = FileNotFound(path: string) | StreamClosed | ReadFailed

  /** What running an action yields: a value or an error, and the world afterwards. */
  datatype Result<+A> = Ok(value: A, world: World) | Err(error: IOError, world: World)

  /** A deferred action (`IO<A>`): nothing happens until it is applied to a world. */
  type Action<A> = World -> Result<A>

  // ---------------------------------------------------------------------------
  // Combinators

  /** `IO.unit`: yields `a` and changes nothing. */
  function Unit<A>(a: A): Action<A>
  {
    (w: World) => Ok(a, w)
  }

  /** `IO.map`: runs `io`, then applies `f` to its value; an error passes through. */
  function Map<A, B>(io: Action<A>, f: A -> B): Action<B>
  {
    (w: World) => match io(w)
                 case Ok(v, w1) => Ok(f(v), w1)
                 case Err(e, w1) => Err(e, w1)
  }

  /** `IO.bind`: runs `io`, then runs the action `f` builds from its value; an error passes through. */
  function Bind<A, B>(io: Action<A>, f: A -> Action<B>): Action<B>
  {
    (w: World) => match io(w)
                 case Ok(v, w1) => f(v)(w1)
                 case Err(e, w1) => Err(e, w1)
  }

  /**
   * `IO.bracket` as written: it runs `init`, then `body` on the acquired
   * resource. In its `finally` block it only calls `fin.f(a)`, which builds
   * the release action and drops it without running it, so `fin` has no
   * effect on the world at all.
   */
  function Bracket<A, B, C>(init: Action<A>, fin: A -> Action<B>, body: A -> Action<C>): Action<C>
  {
    (w: World) => match init(w)
                 case Err(e, w1) => Err(e, w1)
                 case Ok(a, w1) => body(a)(w1)
  }

  /**
   * `IO.bracket` with the release action run in the `finally` block, as the
   * combinator is meant to behave: after `body` finishes, normally or with an
   * error, `fin(a)` runs once; an error of the release replaces the outcome
   * of `body` (Java's `finally` semantics), otherwise `body`'s outcome stands.
   */
  function BracketReleasing<A, B, C>(init: Action<A>, fin: A -> Action<B>, body: A -> Action<C>): Action<C>
  {
    (w: World) => match init(w)
                 case Err(e, w1) => Err(e, w1)
                 case Ok(a, w1) =>
                   var used := body(a)(w1);
                   match fin(a)(used.world)
                   case Err(e, w2) => Err(e, w2)
                   case Ok(_, w2) => used.(world := w2)
  }

  lemma MapIsBindUnit<A, B>(io: Action<A>, f: A -> B, w: World)
    ensures Map(io, f)(w) == Bind(io, (x: A) => Unit(f(x)))(w)
  {
  }

  lemma BindUnitLeft<A, B>(a: A, f: A -> Action<B>, w: World)
    ensures Bind(Unit(a), f)(w) == f(a)(w)
  {
  }

  lemma BindUnitRight<A>(io: Action<A>, w: World)
    ensures Bind(io, (x: A) => Unit(x))(w) == io(w)
  {
  }

  lemma BindAssociative<A, B, C>(io: Action<A>, f: A -> Action<B>, g: B -> Action<C>, w: World)
    ensures Bind(Bind(io, f), g)(w) == Bind(io, (x: A) => Bind(f(x), g))(w)
  {
  }

  /**
   * The bracket as written: a failing `init` yields its error and runs
   * nothing else; otherwise the outcome and world are exactly those of
   * `body`, whatever `fin` is, i.e. the same as `Bind(init, body)`.
   */
  lemma BracketNeverReleases<A, B, C>(init: Action<A>, fin: A -> Action<B>, body: A -> Action<C>, w: World)
    ensures init(w).Err? ==> Bracket(init, fin, body)(w) == Err(init(w).error, init(w).world)
    ensures init(w).Ok? ==> Bracket(init, fin, body)(w) == body(init(w).value)(init(w).world)
    ensures Bracket(init, fin, body)(w) == Bind(init, body)(w)
  {
  }

  /**
   * The corrected bracket against the bracket as written: when `init` fails
   * they agree; otherwise the corrected one is the as-written outcome
   * followed by exactly one run of `fin` on the acquired resource, in the
   * world `body` left behind, whose error (if any) replaces the outcome.
   */
  lemma BracketReleasingExtendsBracket<A, B, C>(init: Action<A>, fin: A -> Action<B>, body: A -> Action<C>, w: World)
    ensures init(w).Err? ==> BracketReleasing(init, fin, body)(w) == Bracket(init, fin, body)(w)
    ensures init(w).Ok? ==>
      var asWritten := Bracket(init, fin, body)(w);
      var released := fin(init(w).value)(asWritten.world);
      BracketReleasing(init, fin, body)(w) ==
        if released.Ok? then asWritten.(world := released.world) else Err(released.error, released.world)
  {
  }

  // ---------------------------------------------------------------------------
  // Files and readers

  /** `bufferFile`: opens a new reader at the first line of the file, or fails if there is no such file. */
  function BufferFile(path: string): Action<Handle>
  {
    (w: World) => if path in w.files
                 then Ok(|w.readers|, w.(readers := w.readers + [Reader(w.files[path], 0, true)]))
                 else Err(FileNotFound(path), w)
  }

  /** `closeReader`: closes the reader; closing a closed reader (or an unknown handle) changes nothing. */
  function CloseReader(h: Handle): Action<()>
  {
    (w: World) => if h < |w.readers|
                 then Ok((), w.(readers := w.readers[h := w.readers[h].(open := false)]))
                 else Ok((), w)
  }

  /** The number of lines the reader has not yet handed out. */
  function Remaining(h: Handle, w: World): nat
  {
    if h < |w.readers| && w.readers[h].pos <= |w.readers[h].file.lines|
    then |w.readers[h].file.lines| - w.readers[h].pos
    else 0
  }

  /** The reader is open and its cursor is within its file. */
  predicate Readable(h: Handle, w: World)
  {
    h < |w.readers| && w.readers[h].open && w.readers[h].pos <= |w.readers[h].file.lines|
  }

  /** The world with the reader's cursor moved `n` lines on. */
  function Advance(w: World, h: Handle, n: nat): World
    requires h < |w.readers|
  {
    w.(readers := w.readers[h := w.readers[h].(pos := w.readers[h].pos + n)])
  }

  /**
   * `BufferedReader.readLine`: the next line, advancing the cursor by one;
   * `None` (Java's `null`) at the end of the file, leaving the world as it
   * is; an error on a closed reader or when the file's read fault is hit.
   */
  function ReadLine(h: Handle, w: World): (r: Result<Option<string>>)
    ensures r.Ok? && r.value.Some? <==> Readable(h, w) && w.readers[h].pos < |w.readers[h].file.lines|
    ensures r.Ok? && r.value.Some? ==>
      r.value.value == w.readers[h].file.lines[w.readers[h].pos] && r.world == Advance(w, h, 1)
    ensures r.Ok? && r.value.None? ==> r.world == w && Remaining(h, w) == 0
    ensures r.Err? ==> r.world == w
  {
    if h >= |w.readers| || !w.readers[h].open then Err(StreamClosed, w)
    else
      var rd := w.readers[h];
      if rd.pos < |rd.file.lines| then
        Ok(Some(rd.file.lines[rd.pos]), w.(readers := w.readers[h := rd.(pos := rd.pos + 1)]))
      else if rd.file.readFault then Err(ReadFailed, w)
      else Ok(None, w)
  }

  // ---------------------------------------------------------------------------
  // The enumerator

  /**
   * The consumer after the lines `xs` are fed to it one at a time, in order,
   * each as `El(line)`, for as long as it keeps waiting; once it is `Done` the
   * remaining lines are not fed.
   */
  function Feed<S, A>(step: Step<S, string, A>, i: IterV<S, string, A>, xs: seq<string>): IterV<S, string, A>
    decreases |xs|
  {
    if i.Done? || xs == [] then i else Feed(step, step(i.state, El(xs[0])), xs[1..])
  }

  /** How many of the lines `xs` the consumer takes before it is `Done`. */
  function Consumed<S, A>(step: Step<S, string, A>, i: IterV<S, string, A>, xs: seq<string>): (n: nat)
    ensures n <= |xs|
    ensures n < |xs| ==> Feed(step, i, xs).Done?
    ensures i.Done? ==> n == 0
    decreases |xs|
  {
    if i.Done? || xs == [] then 0 else 1 + Consumed(step, step(i.state, El(xs[0])), xs[1..])
  }

  /**
   * The loop of `enumReader`'s action, as a recursive function over the
   * world. It touches only reader `h`: the files, the other readers and the
   * number of readers stay as they were.
   */
  function EnumLoop<S, A>(h: Handle, step: Step<S, string, A>, i: IterV<S, string, A>, w: World): (r: Result<IterV<S, string, A>>)
    ensures r.world.files == w.files && |r.world.readers| == |w.readers|
    ensures forall j :: 0 <= j < |w.readers| && j != h ==> r.world.readers[j] == w.readers[j]
    decreases Remaining(h, w)
  {
    if i.Done? then Ok(i, w)
    else
      match ReadLine(h, w)
      case Err(e, w1) => Err(e, w1)
      case Ok(line, w1) =>
        if line.None? then Ok(i, w1)
        else EnumLoop(h, step, step(i.state, El(line.value)), w1)
  }

  /** `enumReader`: the action that runs the enumerator loop on reader `h`, starting from consumer `it`. */
  function EnumReader<S, A>(h: Handle, step: Step<S, string, A>, it: IterV<S, string, A>): Action<IterV<S, string, A>>
  {
    (w: World) => EnumLoop(h, step, it, w)
  }

  /**
   * The `run()` of the enumerator's action: while the consumer is not done,
   * read a line; at the end of the file return the consumer as it is;
   * otherwise apply its step to the line and loop. The step is applied only
   * to a waiting consumer (`i.state` is defined only for `Cont`), so the
   * "iteratee is done" branch cannot be reached.
   */
  method RunEnumReader<S, A>(h: Handle, step: Step<S, string, A>, it: IterV<S, string, A>, w: World)
    returns (r: Result<IterV<S, string, A>>)
    ensures it.Done? ==> r == Ok(it, w)
    ensures r == EnumReader(h, step, it)(w)
  {
    var i := it;
    var cur := w;
    while !i.Done?
      invariant EnumLoop(h, step, i, cur) == EnumLoop(h, step, it, w)
      invariant it.Done? ==> i == it && cur == w
      decreases Remaining(h, cur)
    {
      var read := ReadLine(h, cur);
      if read.Err? {
        return Err(read.error, read.world);
      }
      if read.value.None? {
        return Ok(i, read.world);
      }
      i := step(i.state, El(read.value.value));
      cur := read.world;
    }
    r := Ok(i, cur);
  }

  /** `enumFile`: open the file, run the enumerator on it, and (meant to) close the reader. */
  function EnumFile<S, A>(path: string, step: Step<S, string, A>, it: IterV<S, string, A>): Action<IterV<S, string, A>>
  {
    Bracket(BufferFile(path), CloseReader, (h: Handle) => EnumReader(h, step, it))
  }

  /** `enumFile` built on the corrected bracket, which does close the reader. */
  function EnumFileClosing<S, A>(path: string, step: Step<S, string, A>, it: IterV<S, string, A>): Action<IterV<S, string, A>>
  {
    BracketReleasing(BufferFile(path), CloseReader, (h: Handle) => EnumReader(h, step, it))
  }

  // ---------------------------------------------------------------------------
  // Properties of the enumerator

  /** A finished consumer is never fed again: feeding any lines leaves it as it is. */
  lemma FeedDone<S, A>(step: Step<S, string, A>, i: IterV<S, string, A>, xs: seq<string>)
    requires i.Done?
    ensures Feed(step, i, xs) == i
  {
  }

  /** Feeding `xs` and then `ys` is feeding `xs + ys`: the lines are fed in order, one after another. */
  lemma {:induction false} FeedAppend<S, A>(step: Step<S, string, A>, i: IterV<S, string, A>, xs: seq<string>, ys: seq<string>)
    ensures Feed(step, i, xs + ys) == Feed(step, Feed(step, i, xs), ys)
    decreases |xs|
  {
    if i.Done? {
    } else if xs == [] {
      assert xs + ys == ys;
    } else {
      assert (xs + ys)[1..] == xs[1..] + ys;
      FeedAppend(step, step(i.state, El(xs[0])), xs[1..], ys);
    }
  }

  /** One more line applies the step of the waiting consumer to `El(line)`, exactly once. */
  lemma FeedOneMore<S, A>(step: Step<S, string, A>, i: IterV<S, string, A>, xs: seq<string>, x: string)
    requires Feed(step, i, xs).Cont?
    ensures Feed(step, i, xs + [x]) == step(Feed(step, i, xs).state, El(x))
  {
    FeedAppend(step, i, xs, [x]);
  }

  /**
   * The consumer is fed exactly the first `Consumed` lines: it was still
   * waiting before each of them, and feeding that prefix gives the same
   * consumer as offering all the lines.
   */
  lemma {:induction false} ConsumedPrefix<S, A>(step: Step<S, string, A>, i: IterV<S, string, A>, xs: seq<string>)
    ensures Feed(step, i, xs[..Consumed(step, i, xs)]) == Feed(step, i, xs)
    ensures forall j :: 0 <= j < Consumed(step, i, xs) ==> Feed(step, i, xs[..j]).Cont?
    decreases |xs|
  {
    if i.Done? || xs == [] {
    } else {
      var i' := step(i.state, El(xs[0]));
      var n := Consumed(step, i, xs);
      ConsumedPrefix(step, i', xs[1..]);
      assert xs[..n][1..] == xs[1..][..n - 1];
      forall j | 0 <= j < n
        ensures Feed(step, i, xs[..j]).Cont?
      {
        if j > 0 {
          assert xs[..j][1..] == xs[1..][..j - 1];
        }
      }
    }
  }

  /**
   * On an open reader, the enumerator feeds the consumer the lines after the
   * cursor, in order, until it is `Done` or the lines run out; the cursor
   * ends just after the last line consumed (never past the end of the file)
   * and nothing else in the world changes. At the end of the file the waiting
   * consumer is returned as it is, without end-of-input; if the file's read
   * fault is hit instead, the error is the result.
   */
  lemma {:induction false} EnumLoopFolds<S, A>(h: Handle, step: Step<S, string, A>, i: IterV<S, string, A>, w: World)
    requires Readable(h, w)
    ensures
      var rd := w.readers[h];
      var rest := rd.file.lines[rd.pos..];
      var fed := Feed(step, i, rest);
      var after := Advance(w, h, Consumed(step, i, rest));
      EnumLoop(h, step, i, w) == if fed.Cont? && rd.file.readFault then Err(ReadFailed, after) else Ok(fed, after)
    decreases Remaining(h, w)
  {
    var rd := w.readers[h];
    var rest := rd.file.lines[rd.pos..];
    if i.Done? || rest == [] {
      assert w.readers[h := rd.(pos := rd.pos + 0)] == w.readers;
    } else {
      var w1 := Advance(w, h, 1);
      var i1 := step(i.state, El(rest[0]));
      EnumLoopFolds(h, step, i1, w1);
      assert w1.readers[h].file.lines[w1.readers[h].pos..] == rest[1..];
      var n1 := Consumed(step, i1, rest[1..]);
      assert Advance(w1, h, n1) == Advance(w, h, 1 + n1);
    }
  }

  /**
   * When the enumerator stops without error, the consumer is `Done` or the
   * reader is at the end of its file; either way the cursor is never past
   * the end of the file.
   */
  lemma EnumLoopExit<S, A>(h: Handle, step: Step<S, string, A>, i: IterV<S, string, A>, w: World)
    requires Readable(h, w)
    ensures
      var r := EnumLoop(h, step, i, w);
      h < |r.world.readers| && r.world.readers[h].pos <= |r.world.readers[h].file.lines| &&
      (r.Ok? ==> r.value.Done? || r.world.readers[h].pos == |r.world.readers[h].file.lines|)
  {
    EnumLoopFolds(h, step, i, w);
  }

  /** On a closed reader a waiting consumer gets the "stream closed" error and the world is unchanged. */
  lemma EnumLoopClosed<S, A>(h: Handle, step: Step<S, string, A>, i: IterV<S, string, A>, w: World)
    requires h >= |w.readers| || !w.readers[h].open
    ensures EnumLoop(h, step, i, w) == if i.Done? then Ok(i, w) else Err(StreamClosed, w)
  {
  }

  /**
   * `enumFile` as written: a missing file is an error with nothing opened;
   * otherwise a reader is opened on the file and the consumer is fed its
   * lines as `EnumLoopFolds` says, and the reader is left open afterwards.
   */
  lemma EnumFileRuns<S, A>(path: string, step: Step<S, string, A>, it: IterV<S, string, A>, w: World)
    ensures path !in w.files ==> EnumFile(path, step, it)(w) == Err(FileNotFound(path), w)
    ensures path in w.files ==>
      var f := w.files[path];
      var fed := Feed(step, it, f.lines);
      var after := w.(readers := w.readers + [Reader(f, Consumed(step, it, f.lines), true)]);
      EnumFile(path, step, it)(w) == if fed.Cont? && f.readFault then Err(ReadFailed, after) else Ok(fed, after)
  {
    if path in w.files {
      var f := w.files[path];
      var h := |w.readers|;
      var w1 := w.(readers := w.readers + [Reader(f, 0, true)]);
      EnumLoopFolds(h, step, it, w1);
      assert f.lines[0..] == f.lines;
      assert Advance(w1, h, Consumed(step, it, f.lines)).readers
          == w.readers + [Reader(f, Consumed(step, it, f.lines), true)];
    }
  }

  /** The reader `enumFile` opens is still open when its action has finished, on success and on error alike. */
  lemma EnumFileLeavesReaderOpen<S, A>(path: string, step: Step<S, string, A>, it: IterV<S, string, A>, w: World)
    requires path in w.files
    ensures |EnumFile(path, step, it)(w).world.readers| == |w.readers| + 1
    ensures EnumFile(path, step, it)(w).world.readers[|w.readers|].open
  {
    EnumFileRuns(path, step, it, w);
  }

  /**
   * `enumFile` on the corrected bracket: the same outcome as the code as
   * written, and the one reader it opened is closed afterwards, with nothing
   * else in the world changed.
   */
  lemma EnumFileClosingCloses<S, A>(path: string, step: Step<S, string, A>, it: IterV<S, string, A>, w: World)
    ensures path !in w.files ==> EnumFileClosing(path, step, it)(w) == Err(FileNotFound(path), w)
    ensures path in w.files ==>
      var asWritten := EnumFile(path, step, it)(w);
      var h := |w.readers|;
      h < |asWritten.world.readers| &&
      EnumFileClosing(path, step, it)(w) ==
        asWritten.(world := asWritten.world.(readers := asWritten.world.readers[h := asWritten.world.readers[h].(open := false)]))
  {
    EnumFileRuns(path, step, it, w);
  }

}
