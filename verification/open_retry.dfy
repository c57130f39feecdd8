/** The search both file sinks run when they open their file: open the file of the description;
    while another process holds it, move on to the next description. The description type,
    its `Next` and the path of its file are parameters, so the search and its properties are
    stated once for the size-limited and the hourly sink. */
module OpenRetry {
  import opened Outcomes
  import opened FileSystemModel

  /** The path of the `k`-th open attempt: the requested description, then each next one in turn. */
  function Attempt<D>(next: D -> D, path: D -> string, d: D, k: nat): string {
    path(Iterate(next, d, k))
  }

  /** The first `k` attempts met files held by another process. */
  predicate ContendedBefore<D>(next: D -> D, path: D -> string, d: D, open: string -> OpenOutcome, k: nat)
    decreases k
  {
    k == 0 || (open(path(d)).Contention? && ContendedBefore(next, path, next(d), open, k - 1))
  }

  /** The result of an attempt that is not retried. */
  function Settle(path: string, outcome: OpenOutcome, preamble: nat): (r: Result<Writer>)
    requires !outcome.Contention?
    ensures outcome.Opened? <==> r.Ok?
    ensures r.Ok? ==> r.value == StartWriter(path, outcome.existingBytes, preamble)
    ensures outcome.Unauthorized? ==> r == Err(UnauthorizedAccess(path))
    ensures outcome.OtherIOError? ==> r == Err(IOFailure(path))
  {
    match outcome
    case Opened(n) => Ok(StartWriter(path, n, preamble))
    case Unauthorized => Err(UnauthorizedAccess(path))
    case OtherIOError => Err(IOFailure(path))
  }

  /** `OpenFileForWriting`: contention moves on to the next description; an access denial does
      too while `denialRetry` holds, and clears it; any other I/O error escapes. The sinks recurse
      without bound; `fuel` bounds the number of retries. Without a denial to spare, the result
      is the settlement of the first attempt that meets no contention, or the fuel runs out while
      every attempt meets contention. */
  function OpenWithRetry<D>(next: D -> D, path: D -> string, d: D, open: string -> OpenOutcome,
                            preamble: nat, denialRetry: bool, fuel: nat): (r: Result<Writer>)
    ensures r.Ok? ==> r.value.preamblePending == 0 || r.value.preamblePending == preamble
    ensures !denialRetry ==>
              (exists k :: 0 <= k <= fuel && ContendedBefore(next, path, d, open, k) &&
                           !open(Attempt(next, path, d, k)).Contention? &&
                           r == Settle(Attempt(next, path, d, k), open(Attempt(next, path, d, k)), preamble)) ||
              (r == Err(RetryFuelExhausted) && ContendedBefore(next, path, d, open, fuel + 1))
    decreases fuel
  {
    var p := path(d);
    assert Attempt(next, path, d, 0) == p;
    assert ContendedBefore(next, path, d, open, 0);
    match open(p)
    case Opened(n) => Ok(StartWriter(p, n, preamble))
    case OtherIOError => Err(IOFailure(p))
    case Unauthorized =>
      if !denialRetry then Err(UnauthorizedAccess(p))
      else if fuel == 0 then Err(RetryFuelExhausted)
      else OpenWithRetry(next, path, next(d), open, preamble, false, fuel - 1)
    case Contention =>
      if fuel == 0 then
        assert ContendedBefore(next, path, d, open, 1);
        Err(RetryFuelExhausted)
      else
        var r := OpenWithRetry(next, path, next(d), open, preamble, denialRetry, fuel - 1);
        assert !denialRetry ==>
                 (exists k :: 0 <= k <= fuel && ContendedBefore(next, path, d, open, k) &&
                              !open(Attempt(next, path, d, k)).Contention? &&
                              r == Settle(Attempt(next, path, d, k), open(Attempt(next, path, d, k)), preamble)) ||
                 (r == Err(RetryFuelExhausted) && ContendedBefore(next, path, d, open, fuel + 1)) by {
          if !denialRetry && !(r == Err(RetryFuelExhausted) && ContendedBefore(next, path, next(d), open, fuel)) {
            var k :| 0 <= k <= fuel - 1 && ContendedBefore(next, path, next(d), open, k) &&
                     !open(Attempt(next, path, next(d), k)).Contention? &&
                     r == Settle(Attempt(next, path, next(d), k), open(Attempt(next, path, next(d), k)), preamble);
            AttemptShift(next, path, d, k);
            assert ContendedBefore(next, path, d, open, k + 1);
          }
        }
        r
  }

  /** Iterating `a` times and then `b` times is iterating `a + b` times. */
  lemma {:induction false} IterateAdd<D>(f: D -> D, x: D, a: nat, b: nat)
    ensures Iterate(f, Iterate(f, x, a), b) == Iterate(f, x, a + b)
    decreases a
  {
    if a > 0 {
      IterateAdd(f, f(x), a - 1, b);
    }
  }

  /** Attempts from the next description are the later attempts from this one. */
  lemma AttemptShift<D>(next: D -> D, path: D -> string, d: D, j: nat)
    ensures Attempt(next, path, next(d), j) == Attempt(next, path, d, j + 1)
  {
  }

  /** `ContendedBefore` says that every attempt before the `k`-th met contention. */
  lemma {:induction false} ContendedBeforeMeans<D>(next: D -> D, path: D -> string, d: D,
                                                   open: string -> OpenOutcome, k: nat)
    ensures ContendedBefore(next, path, d, open, k) <==>
            forall j :: 0 <= j < k ==> open(Attempt(next, path, d, j)).Contention?
    decreases k
  {
    if k > 0 {
      ContendedBeforeMeans(next, path, next(d), open, k - 1);
      assert Attempt(next, path, d, 0) == path(d);
      forall j | 0 <= j < k - 1 {
        AttemptShift(next, path, d, j);
      }
      if forall j :: 0 <= j < k ==> open(Attempt(next, path, d, j)).Contention? {
        assert open(Attempt(next, path, d, 0)).Contention?;
        forall j | 0 <= j < k - 1 ensures open(Attempt(next, path, next(d), j)).Contention? {
          assert open(Attempt(next, path, d, j + 1)).Contention?;
        }
      }
      if ContendedBefore(next, path, d, open, k) {
        forall j | 0 <= j < k ensures open(Attempt(next, path, d, j)).Contention? {
          if j > 0 {
            assert open(Attempt(next, path, next(d), j - 1)).Contention?;
          }
        }
      }
    }
  }

  /** The first attempt that is not retried decides the result: after contention at every
      earlier attempt, an attempt that neither meets contention nor has a denial to spare
      settles the open. */
  lemma {:induction false} FirstUncontendedAttemptDecides<D>(next: D -> D, path: D -> string, d: D,
                                                             open: string -> OpenOutcome, preamble: nat,
                                                             denialRetry: bool, fuel: nat, k: nat)
    requires k <= fuel && ContendedBefore(next, path, d, open, k)
    requires !open(Attempt(next, path, d, k)).Contention?
    requires !(denialRetry && open(Attempt(next, path, d, k)).Unauthorized?)
    ensures OpenWithRetry(next, path, d, open, preamble, denialRetry, fuel) ==
            Settle(Attempt(next, path, d, k), open(Attempt(next, path, d, k)), preamble)
    decreases k
  {
    if k > 0 {
      AttemptShift(next, path, d, k - 1);
      FirstUncontendedAttemptDecides(next, path, next(d), open, preamble, denialRetry, fuel - 1, k - 1);
    }
  }

  /** When every attempt the fuel allows meets contention, the search gives up. */
  lemma {:induction false} ContentionExhaustsFuel<D>(next: D -> D, path: D -> string, d: D,
                                                     open: string -> OpenOutcome, preamble: nat,
                                                     denialRetry: bool, fuel: nat)
    requires ContendedBefore(next, path, d, open, fuel + 1)
    ensures OpenWithRetry(next, path, d, open, preamble, denialRetry, fuel) == Err(RetryFuelExhausted)
    decreases fuel
  {
    if fuel > 0 {
      ContentionExhaustsFuel(next, path, next(d), open, preamble, denialRetry, fuel - 1);
    }
  }

  /** Either every attempt up to the `n`-th meets contention, or there is a first one that does not. */
  lemma {:induction false} ContentionEndsOrExhausts<D>(next: D -> D, path: D -> string, d: D,
                                                       open: string -> OpenOutcome, n: nat)
    ensures ContendedBefore(next, path, d, open, n) ||
            exists k :: 0 <= k < n && ContendedBefore(next, path, d, open, k) &&
                        !open(Attempt(next, path, d, k)).Contention?
    decreases n
  {
    if n > 0 && open(path(d)).Contention? {
      ContentionEndsOrExhausts(next, path, next(d), open, n - 1);
      if !ContendedBefore(next, path, next(d), open, n - 1) {
        var k :| 0 <= k < n - 1 && ContendedBefore(next, path, next(d), open, k) &&
                 !open(Attempt(next, path, next(d), k)).Contention?;
        AttemptShift(next, path, d, k);
        assert ContendedBefore(next, path, d, open, k + 1);
      }
    } else if n > 0 {
      assert Attempt(next, path, d, 0) == path(d);
      assert ContendedBefore(next, path, d, open, 0);
    }
  }

  /** Without a denial to spare, the open succeeds only at a file reached through contention, and
      fails only with the error of such a file or when the fuel runs out under contention. */
  lemma OpenOutcomeExplained<D>(next: D -> D, path: D -> string, d: D, open: string -> OpenOutcome,
                                preamble: nat, fuel: nat)
    ensures var r := OpenWithRetry(next, path, d, open, preamble, false, fuel);
            (r.Ok? ==> exists k :: 0 <= k <= fuel && ContendedBefore(next, path, d, open, k) &&
                        open(Attempt(next, path, d, k)).Opened? &&
                        r.value == StartWriter(Attempt(next, path, d, k), open(Attempt(next, path, d, k)).existingBytes, preamble)) &&
            (r.Err? ==>
               (r.error == RetryFuelExhausted && ContendedBefore(next, path, d, open, fuel + 1)) ||
               exists k :: 0 <= k <= fuel && ContendedBefore(next, path, d, open, k) &&
                 ((open(Attempt(next, path, d, k)).Unauthorized? && r.error == UnauthorizedAccess(Attempt(next, path, d, k))) ||
                  (open(Attempt(next, path, d, k)).OtherIOError? && r.error == IOFailure(Attempt(next, path, d, k)))))
  {
    ContentionEndsOrExhausts(next, path, d, open, fuel + 1);
    if ContendedBefore(next, path, d, open, fuel + 1) {
      ContentionExhaustsFuel(next, path, d, open, preamble, false, fuel);
    } else {
      var k :| 0 <= k < fuel + 1 && ContendedBefore(next, path, d, open, k) &&
               !open(Attempt(next, path, d, k)).Contention?;
      FirstUncontendedAttemptDecides(next, path, d, open, preamble, false, fuel, k);
    }
  }

  /** The first access denial is retried like contention, at the next description, and uses up
      the one denial the search may spare. */
  lemma {:induction false} FirstDenialRetried<D>(next: D -> D, path: D -> string, d: D,
                                                 open: string -> OpenOutcome, preamble: nat, fuel: nat, k: nat)
    requires k < fuel && ContendedBefore(next, path, d, open, k)
    requires open(Attempt(next, path, d, k)).Unauthorized?
    ensures OpenWithRetry(next, path, d, open, preamble, true, fuel) ==
            OpenWithRetry(next, path, Iterate(next, d, k + 1), open, preamble, false, fuel - k - 1)
    decreases k
  {
    if k > 0 {
      AttemptShift(next, path, d, k - 1);
      FirstDenialRetried(next, path, next(d), open, preamble, fuel - 1, k - 1);
    }
  }

  /** A second access denial escapes: after a denial at attempt `j` and contention at every
      attempt between, a denial at attempt `k` ends the search with that denial. */
  lemma SecondDenialEscapes<D>(next: D -> D, path: D -> string, d: D, open: string -> OpenOutcome,
                               preamble: nat, fuel: nat, j: nat, k: nat)
    requires j < k <= fuel && ContendedBefore(next, path, d, open, j)
    requires open(Attempt(next, path, d, j)).Unauthorized?
    requires ContendedBefore(next, path, Iterate(next, d, j + 1), open, k - j - 1)
    requires open(Attempt(next, path, d, k)).Unauthorized?
    ensures OpenWithRetry(next, path, d, open, preamble, true, fuel) == Err(UnauthorizedAccess(Attempt(next, path, d, k)))
  {
    var e := Iterate(next, d, j + 1);
    FirstDenialRetried(next, path, d, open, preamble, fuel, j);
    IterateAdd(next, d, j + 1, k - j - 1);
    assert Attempt(next, path, e, k - j - 1) == Attempt(next, path, d, k);
    FirstUncontendedAttemptDecides(next, path, e, open, preamble, false, fuel - j - 1, k - j - 1);
  }

  /** Every file the search opens is the file of some description: a property of every
      description's path holds of the opened path. */
  lemma {:induction false} OpenedPathHas<D>(next: D -> D, path: D -> string, d: D, open: string -> OpenOutcome,
                                            preamble: nat, denialRetry: bool, fuel: nat, good: string -> bool)
    requires forall x :: good(path(x))
    ensures var r := OpenWithRetry(next, path, d, open, preamble, denialRetry, fuel);
            r.Ok? ==> good(r.value.output.path)
    decreases fuel
  {
    if fuel > 0 {
      OpenedPathHas(next, path, next(d), open, preamble, false, fuel - 1, good);
      OpenedPathHas(next, path, next(d), open, preamble, denialRetry, fuel - 1, good);
    }
  }
}
