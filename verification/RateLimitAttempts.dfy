/** The two layers of a credential attempt: one after the other, and concurrently. */
module RateLimitAttempts {
  import opened Wrappers
  import opened Text
  import opened RateLimit
  import opened RateLimitTheorems

  // ---------------------------------------------------------------- one account

  /** Two identifiers share a counter exactly if they are equal once stripped and lowered, and
      no counter of one scope is another's for the same account. */
  lemma SameCounterIff(scope: string, a: string, other: string, b: string)
    ensures IdKey(scope, a) == IdKey(scope, b) <==> Clean(Some(a)) == Clean(Some(b))
    ensures IdKey(scope, a) == IdKey(other, a) <==> scope == other
    ensures IdKey(scope, a) == scope + ":id:" + Clean(Some(a))
  {
    var x, y := Clean(Some(a)), Clean(Some(b));
    assert IdKey(scope, a)[|scope| + 4..] == x && IdKey(scope, b)[|scope| + 4..] == y;
    if IdKey(scope, a) == IdKey(other, a) {
      assert |scope| == |other| && IdKey(scope, a)[..|scope|] == scope && IdKey(other, a)[..|scope|] == other;
    }
  }

  /** The account's counter, the account being given by its stripped and lowered name. */
  function AccountKey(scope: string, account: string): string {
    scope + ":id:" + account
  }

  /** The identifier is the account's, however it is spelled. */
  predicate Spells(identifier: Option<string>, account: string) {
    identifier.Some? && identifier.value != "" && Clean(identifier) == account
  }

  // ---------------------------------------------------------------- two layers

  predicate Mark(mark: string) {
    mark == ":ip:" || mark == ":id:"
  }

  predicate Marked(text: string, i: nat) {
    i + 4 <= |text| && Mark(text[i..i + 4])
  }

  /** With a colon after it, as in a key, the scope holds neither layer's mark. */
  ghost predicate Readable(scope: string) {
    forall i: nat :: !Marked(scope + ":", i)
  }

  /** Where two keys agree, the mark after the shorter scope lies inside the longer one. */
  lemma MarkInside(a: string, b: string, mark: string, x: string, other: string, y: string)
    requires Mark(mark) && Mark(other) && |a| < |b| && a + (mark + x) == b + (other + y)
    ensures Marked(b + ":", |a|)
  {
    var key := a + (mark + x);
    assert key[|a|..|a| + 4] == mark;
    assert key[|b|] == other[0] == ':' && key[|b| + 1] == other[1] == 'i';
    assert key[|a| + 1] == mark[1] == 'i' && key[|a| + 2] == mark[2] != ':';
    assert key[..|b| + 1] == b + ":" by {
      assert (b + (other + y))[..|b| + 1] == b + (other + y)[..1];
    }
    assert (b + ":")[|a|..|a| + 4] == key[|a|..|a| + 4];
  }

  /** An IP key never spells an account's key, whatever the IP and the identifier are. */
  lemma KeysApart(scope: string, ip: string, other: string, x: string)
    requires Readable(scope) && Readable(other)
    ensures scope + ":ip:" + ip != AccountKey(other, x)
  {
    assert scope + ":ip:" + ip == scope + (":ip:" + ip);
    assert AccountKey(other, x) == other + (":id:" + x);
    assert (scope + (":ip:" + ip))[|scope| + 2] == 'p' && (other + (":id:" + x))[|other| + 2] == 'd';
    if scope + (":ip:" + ip) == other + (":id:" + x) {
      if |scope| < |other| {
        MarkInside(scope, other, ":ip:", ip, ":id:", x);
      } else if |other| < |scope| {
        MarkInside(other, scope, ":id:", x, ":ip:", ip);
      }
    }
  }

  /** The account's key holds no IP mark: every IP key holds one. */
  ghost predicate Unmarked(key: string) {
    forall i: nat | i + 4 <= |key| :: !IpMark(key, i)
  }

  predicate IpMark(key: string, i: nat)
    requires i + 4 <= |key|
  {
    key[i..i + 4] == ":ip:"
  }

  lemma UnmarkedApart(scope: string, ip: string, key: string)
    requires Unmarked(key)
    ensures scope + ":ip:" + ip != key
  {
    if scope + ":ip:" + ip == key {
      assert key[|scope|..|scope| + 4] == ":ip:";
      assert IpMark(key, |scope|);
    }
  }

  /** No IP key spells the account's key: its own key holds no IP mark, or every scope in use is
      readable. Either can be checked beforehand. */
  ghost predicate Separate(scopes: set<string>, scope: string, account: string) {
    Unmarked(AccountKey(scope, account)) || (Readable(scope) && forall x | x in scopes :: Readable(x))
  }

  lemma SeparateApart(scopes: set<string>, x: string, ip: string, scope: string, account: string)
    requires Separate(scopes, scope, account) && x in scopes
    ensures x + ":ip:" + ip != AccountKey(scope, account)
  {
    if Unmarked(AccountKey(scope, account)) {
      UnmarkedApart(x, ip, AccountKey(scope, account));
    } else {
      KeysApart(x, ip, scope, account);
    }
  }

  /** All hits of a run of attempts, in order. */
  function Hits(attempts: seq<Attempt>, ipLimit: int, ipWindow: int): seq<Hit> {
    if attempts == [] then []
    else
      var before := Hits(attempts[..|attempts| - 1], ipLimit, ipWindow);
      before + HitsOf(StoreAfter(before), attempts[|attempts| - 1], ipLimit, ipWindow)
  }

  /** An attempt passes when both layers admit it. */
  function Passes(attempts: seq<Attempt>, ipLimit: int, ipWindow: int, k: nat): bool
    requires k < |attempts|
  {
    var before := Hits(attempts[..k], ipLimit, ipWindow);
    var (first, between) := Enforced(StoreAfter(before), IpHit(attempts[k], ipLimit, ipWindow));
    first.Admitted? && (HasIdentifier(attempts[k]) ==> Enforced(between, IdHit(attempts[k])).0.Admitted?)
  }

  /** The attempts on one account, however its name is spelled, that pass in an interval. */
  ghost function PassedIn(attempts: seq<Attempt>, ipLimit: int, ipWindow: int,
                          scope: string, account: string, from: int, to: int): set<nat>
  {
    set k: nat | k < |attempts| && attempts[k].scope == scope && Spells(attempts[k].identifier, account)
                 && from <= attempts[k].idNow <= to && Passes(attempts, ipLimit, ipWindow, k)
  }

  /** Where the identifier hit of attempt k stands among all hits. */
  function IdHitIndex(attempts: seq<Attempt>, ipLimit: int, ipWindow: int, k: nat): nat {
    if k <= |attempts| then |Hits(attempts[..k], ipLimit, ipWindow)| + 1 else 0
  }

  lemma HitsStep(attempts: seq<Attempt>, ipLimit: int, ipWindow: int, n: nat)
    requires n < |attempts|
    ensures var before := Hits(attempts[..n], ipLimit, ipWindow);
            Hits(attempts[..n + 1], ipLimit, ipWindow)
            == before + HitsOf(StoreAfter(before), attempts[n], ipLimit, ipWindow)
  {
    assert attempts[..n + 1][..n] == attempts[..n];
  }

  lemma HitsShorter(attempts: seq<Attempt>, ipLimit: int, ipWindow: int, n: nat)
    requires n < |attempts|
    ensures Hits(attempts[..n], ipLimit, ipWindow) <= Hits(attempts[..n + 1], ipLimit, ipWindow)
  {
    HitsStep(attempts, ipLimit, ipWindow, n);
  }

  lemma {:induction false} Chain(lists: seq<seq<Hit>>, k: nat, n: nat)
    requires k <= n < |lists| && forall i | 0 < i < |lists| :: lists[i - 1] <= lists[i]
    ensures lists[k] <= lists[n]
    decreases n
  {
    if k < n {
      Chain(lists, k, n - 1);
    }
  }

  lemma HitsPrefix(attempts: seq<Attempt>, ipLimit: int, ipWindow: int, k: nat, n: nat)
    requires k <= n <= |attempts|
    ensures Hits(attempts[..k], ipLimit, ipWindow) <= Hits(attempts[..n], ipLimit, ipWindow)
  {
    var lists := seq(|attempts| + 1, i requires 0 <= i <= |attempts| => Hits(attempts[..i], ipLimit, ipWindow));
    forall i | 0 < i < |lists|
      ensures lists[i - 1] <= lists[i]
    {
      HitsShorter(attempts, ipLimit, ipWindow, i - 1);
    }
    Chain(lists, k, n);
  }

  lemma HitsGrow(attempts: seq<Attempt>, ipLimit: int, ipWindow: int, k: nat, n: nat)
    requires k < n <= |attempts|
    ensures var before := Hits(attempts[..k], ipLimit, ipWindow);
            before + HitsOf(StoreAfter(before), attempts[k], ipLimit, ipWindow)
            <= Hits(attempts[..n], ipLimit, ipWindow)
  {
    HitsStep(attempts, ipLimit, ipWindow, k);
    HitsPrefix(attempts, ipLimit, ipWindow, k + 1, n);
  }

  lemma SecondVerdict(before: seq<Hit>, first: Hit, second: Hit, run: seq<Hit>)
    requires before + [first, second] <= run
    ensures VerdictAt(run, |before| + 1) == Enforced(Enforced(StoreAfter(before), first).1, second).0
  {
    StoreAfterOneMore(before, first);
    var both := before + [first, second];
    assert run[|before| + 1] == both[|before| + 1];
    assert run[..|before| + 1] == both[..|before| + 1];
    assert both[..|before| + 1] == before + [first];
  }

  lemma StoreAfterOneMore(before: seq<Hit>, h: Hit)
    ensures StoreAfter(before + [h]) == Enforced(StoreAfter(before), h).1
  {
    assert (before + [h])[..|before|] == before;
  }

  /** A passed attempt leaves an admitted identifier hit in the run of hits. */
  lemma PassedIsAdmitted(attempts: seq<Attempt>, ipLimit: int, ipWindow: int, k: nat)
    requires k < |attempts| && HasIdentifier(attempts[k]) && Passes(attempts, ipLimit, ipWindow, k)
    ensures var run := Hits(attempts, ipLimit, ipWindow);
            var i := IdHitIndex(attempts, ipLimit, ipWindow, k);
            i < |run| && run[i] == IdHit(attempts[k]) && VerdictAt(run, i).Admitted?
  {
    HitsGrow(attempts, ipLimit, ipWindow, k, |attempts|);
    assert attempts[..|attempts|] == attempts;
    var run := Hits(attempts, ipLimit, ipWindow);
    var before := Hits(attempts[..k], ipLimit, ipWindow);
    SecondVerdict(before, IpHit(attempts[k], ipLimit, ipWindow), IdHit(attempts[k]), run);
  }

  /** Attempts come one after the other, and the identifier is counted after the IP. */
  ghost predicate InOrder(attempts: seq<Attempt>) {
    && (forall k | 0 <= k < |attempts| :: attempts[k].ipNow <= attempts[k].idNow)
    && (forall k, j | 0 <= k < j < |attempts| :: attempts[k].idNow <= attempts[j].ipNow)
  }

  lemma AppendClocked(before: seq<Hit>, tail: seq<Hit>)
    requires Clocked(before) && Clocked(tail)
    requires forall h | h in before :: tail != [] && h.now <= tail[0].now
    ensures Clocked(before + tail)
  {
  }

  /** The hits of one attempt lie between its two clock readings. */
  lemma OwnHits(store: Store, a: Attempt, ipLimit: int, ipWindow: int)
    requires a.ipNow <= a.idNow
    ensures var hits := HitsOf(store, a, ipLimit, ipWindow);
            && hits != [] && hits[0].now == a.ipNow && Clocked(hits)
            && forall h | h in hits :: h.now <= a.idNow
  {
    assert HitsOf(store, a, ipLimit, ipWindow) == [IpHit(a, ipLimit, ipWindow)]
           || (HasIdentifier(a) && HitsOf(store, a, ipLimit, ipWindow) == [IpHit(a, ipLimit, ipWindow), IdHit(a)]);
  }

  lemma {:induction false} HitsInOrder(attempts: seq<Attempt>, ipLimit: int, ipWindow: int)
    requires InOrder(attempts)
    ensures Clocked(Hits(attempts, ipLimit, ipWindow))
    ensures forall h | h in Hits(attempts, ipLimit, ipWindow) ::
              attempts != [] && h.now <= attempts[|attempts| - 1].idNow
  {
    if attempts != [] {
      var n := |attempts| - 1;
      var before := Hits(attempts[..n], ipLimit, ipWindow);
      HitsInOrder(attempts[..n], ipLimit, ipWindow);
      OwnHits(StoreAfter(before), attempts[n], ipLimit, ipWindow);
      AppendClocked(before, HitsOf(StoreAfter(before), attempts[n], ipLimit, ipWindow));
    }
  }

  /** No IP layer key spells the account's key. */
  ghost predicate NoIpKey(attempts: seq<Attempt>, key: string) {
    forall k | 0 <= k < |attempts| :: attempts[k].scope + ":ip:" + attempts[k].ip != key
  }

  lemma {:induction false} HitsUniform(attempts: seq<Attempt>, ipLimit: int, ipWindow: int, key: string)
    requires NoIpKey(attempts, key)
    ensures Uniform(Hits(attempts, ipLimit, ipWindow), key, IDENTIFIER_LIMIT, IDENTIFIER_WINDOW_SECONDS)
  {
    if attempts != [] {
      HitsUniform(attempts[..|attempts| - 1], ipLimit, ipWindow, key);
    }
  }

  lemma IdHitsApart(attempts: seq<Attempt>, ipLimit: int, ipWindow: int, k: nat, j: nat)
    requires k < |attempts| && j < |attempts| && k != j
    ensures IdHitIndex(attempts, ipLimit, ipWindow, k) != IdHitIndex(attempts, ipLimit, ipWindow, j)
  {
    var lo, hi := if k < j then k else j, if k < j then j else k;
    HitsGrow(attempts, ipLimit, ipWindow, lo, hi);
    assert |HitsOf(StoreAfter(Hits(attempts[..lo], ipLimit, ipWindow)), attempts[lo], ipLimit, ipWindow)| >= 1;
  }

  /** Passed attempts are no more than the admitted hits on the account's key. */
  lemma PassedBound(attempts: seq<Attempt>, ipLimit: int, ipWindow: int, scope: string, account: string,
                    from: int, to: int)
    ensures |PassedIn(attempts, ipLimit, ipWindow, scope, account, from, to)|
            <= |AdmittedIn(Hits(attempts, ipLimit, ipWindow), AccountKey(scope, account), from, to)|
  {
    var run, key := Hits(attempts, ipLimit, ipWindow), AccountKey(scope, account);
    var passed := PassedIn(attempts, ipLimit, ipWindow, scope, account, from, to);
    forall k | k in passed
      ensures IdHitIndex(attempts, ipLimit, ipWindow, k) in AdmittedIn(run, key, from, to)
    {
      SameCounterIff(scope, attempts[k].identifier.value, scope, attempts[k].identifier.value);
      PassedIsAdmitted(attempts, ipLimit, ipWindow, k);
    }
    forall k, j | k in passed && j in passed && k != j
      ensures IdHitIndex(attempts, ipLimit, ipWindow, k) != IdHitIndex(attempts, ipLimit, ipWindow, j)
    {
      IdHitsApart(attempts, ipLimit, ipWindow, k, j);
    }
    InjectionBound(passed, k => IdHitIndex(attempts, ipLimit, ipWindow, k), AdmittedIn(run, key, from, to));
  }

  lemma IdentifierHits(attempts: seq<Attempt>, ipLimit: int, ipWindow: int, key: string, from: int, to: int)
    requires InOrder(attempts) && NoIpKey(attempts, key) && to == from + 300000
    ensures var run := Hits(attempts, ipLimit, ipWindow);
            |AdmittedIn(run, key, from, to)| <= 20 + |LostIn(run, key, from, to)|
  {
    HitsInOrder(attempts, ipLimit, ipWindow);
    HitsUniform(attempts, ipLimit, ipWindow, key);
    IntervalBound(Hits(attempts, ipLimit, ipWindow), key, IDENTIFIER_LIMIT, IDENTIFIER_WINDOW_SECONDS, from);
  }

  function ScopesOf(attempts: seq<Attempt>): set<string> {
    set k | 0 <= k < |attempts| :: attempts[k].scope
  }

  lemma SeparateScopes(attempts: seq<Attempt>, scope: string, account: string)
    requires Separate(ScopesOf(attempts), scope, account)
    ensures NoIpKey(attempts, AccountKey(scope, account))
  {
    forall k | 0 <= k < |attempts|
      ensures attempts[k].scope + ":ip:" + attempts[k].ip != AccountKey(scope, account)
    {
      SeparateApart(ScopesOf(attempts), attempts[k].scope, attempts[k].ip, scope, account);
    }
  }

  /** However many IPs and spellings are used, at most 20 attempts on one account pass in any
      300 seconds, plus one for each call Redis lost, when keys are kept separate. */
  lemma AccountBound(attempts: seq<Attempt>, ipLimit: int, ipWindow: int, scope: string, account: string,
                     from: int, to: int)
    requires InOrder(attempts) && to == from + 300000
    requires Separate(ScopesOf(attempts), scope, account)
    ensures |PassedIn(attempts, ipLimit, ipWindow, scope, account, from, to)|
            <= 20 + |LostIn(Hits(attempts, ipLimit, ipWindow), scope + ":id:" + account, from, to)|
  {
    SeparateScopes(attempts, scope, account);
    PassedBound(attempts, ipLimit, ipWindow, scope, account, from, to);
    IdentifierHits(attempts, ipLimit, ipWindow, AccountKey(scope, account), from, to);
  }

  // ---------------------------------------------------------------- one IP

  /** The attempts from one IP on one scope that pass in an interval. */
  ghost function PassedFrom(attempts: seq<Attempt>, ipLimit: int, ipWindow: int,
                            scope: string, ip: string, from: int, to: int): set<nat>
  {
    set k: nat | k < |attempts| && attempts[k].scope == scope && attempts[k].ip == ip
                 && from <= attempts[k].ipNow <= to && Passes(attempts, ipLimit, ipWindow, k)
  }

  /** Where the IP hit of attempt k stands among all hits. */
  function IpHitIndex(attempts: seq<Attempt>, ipLimit: int, ipWindow: int, k: nat): nat {
    if k <= |attempts| then |Hits(attempts[..k], ipLimit, ipWindow)| else 0
  }

  lemma FirstVerdict(before: seq<Hit>, hits: seq<Hit>, run: seq<Hit>)
    requires hits != [] && before + hits <= run
    ensures |before| < |run| && run[|before|] == hits[0]
    ensures VerdictAt(run, |before|) == Enforced(StoreAfter(before), hits[0]).0
  {
    assert run[|before|] == (before + hits)[|before|];
    assert run[..|before|] == before;
  }

  lemma PassedIpIsAdmitted(attempts: seq<Attempt>, ipLimit: int, ipWindow: int, k: nat)
    requires k < |attempts| && Passes(attempts, ipLimit, ipWindow, k)
    ensures var run := Hits(attempts, ipLimit, ipWindow);
            var i := IpHitIndex(attempts, ipLimit, ipWindow, k);
            i < |run| && VerdictAt(run, i).Admitted?
            && run[i].key == attempts[k].scope + ":ip:" + attempts[k].ip && run[i].now == attempts[k].ipNow
  {
    HitsGrow(attempts, ipLimit, ipWindow, k, |attempts|);
    assert attempts[..|attempts|] == attempts;
    var before := Hits(attempts[..k], ipLimit, ipWindow);
    FirstVerdict(before, HitsOf(StoreAfter(before), attempts[k], ipLimit, ipWindow),
                 Hits(attempts, ipLimit, ipWindow));
  }

  lemma IpHitsApart(attempts: seq<Attempt>, ipLimit: int, ipWindow: int, k: nat, j: nat)
    requires k < |attempts| && j < |attempts| && k != j
    ensures IpHitIndex(attempts, ipLimit, ipWindow, k) != IpHitIndex(attempts, ipLimit, ipWindow, j)
  {
    IdHitsApart(attempts, ipLimit, ipWindow, k, j);
  }

  lemma PassedFromBound(attempts: seq<Attempt>, ipLimit: int, ipWindow: int, scope: string, ip: string,
                        from: int, to: int)
    ensures |PassedFrom(attempts, ipLimit, ipWindow, scope, ip, from, to)|
            <= |AdmittedIn(Hits(attempts, ipLimit, ipWindow), scope + ":ip:" + ip, from, to)|
  {
    var run, key := Hits(attempts, ipLimit, ipWindow), scope + ":ip:" + ip;
    var passed := PassedFrom(attempts, ipLimit, ipWindow, scope, ip, from, to);
    forall k | k in passed
      ensures IpHitIndex(attempts, ipLimit, ipWindow, k) in AdmittedIn(run, key, from, to)
    {
      PassedIpIsAdmitted(attempts, ipLimit, ipWindow, k);
    }
    forall k, j | k in passed && j in passed && k != j
      ensures IpHitIndex(attempts, ipLimit, ipWindow, k) != IpHitIndex(attempts, ipLimit, ipWindow, j)
    {
      IpHitsApart(attempts, ipLimit, ipWindow, k, j);
    }
    InjectionBound(passed, k => IpHitIndex(attempts, ipLimit, ipWindow, k), AdmittedIn(run, key, from, to));
  }

  /** No account's key spells the IP's key. */
  ghost predicate NoAccountKey(attempts: seq<Attempt>, key: string) {
    forall k | 0 <= k < |attempts| && HasIdentifier(attempts[k]) ::
      AccountKey(attempts[k].scope, Clean(attempts[k].identifier)) != key
  }

  lemma {:induction false} IpHitsUniform(attempts: seq<Attempt>, ipLimit: int, ipWindow: int, key: string)
    requires ipWindow >= 1 && NoAccountKey(attempts, key)
    ensures Uniform(Hits(attempts, ipLimit, ipWindow), key, ipLimit, ipWindow)
  {
    if attempts != [] {
      IpHitsUniform(attempts[..|attempts| - 1], ipLimit, ipWindow, key);
    }
  }

  lemma BoundTo(run: seq<Hit>, key: string, limit: nat, seconds: int, from: int, to: int)
    requires Uniform(run, key, limit, seconds) && Clocked(run) && to == from + seconds * 1000
    ensures |AdmittedIn(run, key, from, to)| <= 2 * limit + |LostIn(run, key, from, to)|
  {
    IntervalBound(run, key, limit, seconds, from);
  }

  lemma IpHits(attempts: seq<Attempt>, ipLimit: nat, ipWindow: int, key: string, from: int, to: int)
    requires InOrder(attempts) && ipWindow >= 1 && NoAccountKey(attempts, key) && to == from + ipWindow * 1000
    ensures var run := Hits(attempts, ipLimit, ipWindow);
            |AdmittedIn(run, key, from, to)| <= 2 * ipLimit + |LostIn(run, key, from, to)|
  {
    HitsInOrder(attempts, ipLimit, ipWindow);
    IpHitsUniform(attempts, ipLimit, ipWindow, key);
    BoundTo(Hits(attempts, ipLimit, ipWindow), key, ipLimit, ipWindow, from, to);
  }

  lemma ReadableScopes(attempts: seq<Attempt>, scope: string, ip: string)
    requires Readable(scope) && forall x | x in ScopesOf(attempts) :: Readable(x)
    ensures NoAccountKey(attempts, scope + ":ip:" + ip)
  {
    forall k | 0 <= k < |attempts| && HasIdentifier(attempts[k])
      ensures AccountKey(attempts[k].scope, Clean(attempts[k].identifier)) != scope + ":ip:" + ip
    {
      assert attempts[k].scope in ScopesOf(attempts);
      KeysApart(scope, ip, attempts[k].scope, Clean(attempts[k].identifier));
    }
  }

  /** From one IP, whatever accounts it tries, at most twice the IP limit of attempts on a scope
      pass in any interval of the IP window's length, plus one for each call Redis lost. */
  lemma IpBound(attempts: seq<Attempt>, ipLimit: nat, ipWindow: int, scope: string, ip: string, from: int, to: int)
    requires InOrder(attempts) && ipWindow >= 1 && to == from + ipWindow * 1000
    requires Readable(scope) && forall x | x in ScopesOf(attempts) :: Readable(x)
    ensures |PassedFrom(attempts, ipLimit, ipWindow, scope, ip, from, to)|
            <= 2 * ipLimit + |LostIn(Hits(attempts, ipLimit, ipWindow), scope + ":ip:" + ip, from, to)|
  {
    ReadableScopes(attempts, scope, ip);
    PassedFromBound(attempts, ipLimit, ipWindow, scope, ip, from, to);
    IpHits(attempts, ipLimit, ipWindow, scope + ":ip:" + ip, from, to);
  }

  // ---------------------------------------------------------------- concurrent attempts

  /** An attempt between its two calls: admitted by the IP layer, its identifier not yet
      counted. */
  datatype Waiting = Waiting(scope: string, identifier: string)

  /** The hits made so far in the order Redis ran them, the attempts between their calls,
      and the attempts that passed, by where in the run their identifier hits stand. */
  datatype Gate = Gate(run: seq<Hit>, waiting: map<nat, Waiting>, passed: map<nat, Waiting>)

  datatype Move =
    | Enter(p: nat, scope: string, ip: string, identifier: Option<string>, now: int, fate: Fate)
    | Count(p: nat, now: int, fate: Fate)
    | Leave(p: nat) // the process died between the calls

  predicate Possible(g: Gate, m: Move) {
    match m
    case Enter(p, _, _, _, _, _) => p !in g.waiting
    case Count(p, _, _) => p in g.waiting
    case Leave(p) => p in g.waiting
  }

  function EnterHit(m: Move, ipLimit: int, ipWindow: int): Hit
    requires m.Enter?
  {
    Hit(m.scope + ":ip:" + m.ip, ipLimit, ipWindow, m.now, m.fate)
  }

  function CountHit(w: Waiting, m: Move): Hit
    requires m.Count?
  {
    Hit(IdKey(w.scope, w.identifier), IDENTIFIER_LIMIT, IDENTIFIER_WINDOW_SECONDS, m.now, m.fate)
  }

  function Moved(g: Gate, m: Move, ipLimit: int, ipWindow: int): Gate
    requires Possible(g, m)
  {
    match m
    case Enter(p, scope, _, identifier, _, _) =>
      var h := EnterHit(m, ipLimit, ipWindow);
      var admitted := Enforced(StoreAfter(g.run), h).0.Admitted?;
      Gate(g.run + [h],
           if admitted && FirstOf([identifier]).Some?
           then g.waiting[p := Waiting(scope, FirstOf([identifier]).value)] else g.waiting,
           g.passed)
    case Count(p, _, _) =>
      var h := CountHit(g.waiting[p], m);
      var admitted := Enforced(StoreAfter(g.run), h).0.Admitted?;
      Gate(g.run + [h], g.waiting - {p},
           if admitted then g.passed[|g.run| := g.waiting[p]] else g.passed)
    case Leave(p) => g.(waiting := g.waiting - {p})
  }

  predicate Makes(moves: seq<Move>, ipLimit: int, ipWindow: int)
    decreases |moves|, 0
  {
    moves == [] ||
    (&& Makes(moves[..|moves| - 1], ipLimit, ipWindow)
     && Possible(Through(moves[..|moves| - 1], ipLimit, ipWindow), moves[|moves| - 1]))
  }

  /** The gate after moves of any attempts, interleaved in any way, from an empty store. */
  function Through(moves: seq<Move>, ipLimit: int, ipWindow: int): Gate
    requires Makes(moves, ipLimit, ipWindow)
    decreases |moves|, 1
  {
    if moves == [] then Gate([], map[], map[])
    else Moved(Through(moves[..|moves| - 1], ipLimit, ipWindow), moves[|moves| - 1], ipLimit, ipWindow)
  }

  function At(m: Move): Option<int> {
    match m
    case Enter(_, _, _, _, now, _) => Some(now)
    case Count(_, now, _) => Some(now)
    case Leave(_) => None
  }

  /** Redis runs the scripts in clock order, and no IP key spells the account's key. */
  ghost predicate Orderly(moves: seq<Move>, key: string) {
    && (forall i, j | 0 <= i < j < |moves| && At(moves[i]).Some? && At(moves[j]).Some? ::
          At(moves[i]).value <= At(moves[j]).value)
    && forall i | 0 <= i < |moves| && moves[i].Enter? :: moves[i].scope + ":ip:" + moves[i].ip != key
  }

  lemma VerdictOfPrefix(run: seq<Hit>, h: Hit, i: nat)
    requires i < |run|
    ensures VerdictAt(run + [h], i) == VerdictAt(run, i)
  {
    assert (run + [h])[..i] == run[..i];
  }

  lemma VerdictOfLast(run: seq<Hit>, h: Hit)
    ensures VerdictAt(run + [h], |run|) == Enforced(StoreAfter(run), h).0
  {
    assert (run + [h])[..|run|] == run;
  }

  ghost predicate GateSafe(g: Gate, key: string) {
    && Uniform(g.run, key, IDENTIFIER_LIMIT, IDENTIFIER_WINDOW_SECONDS)
    && Clocked(g.run)
    && forall i | i in g.passed ::
         && i < |g.run| && VerdictAt(g.run, i).Admitted?
         && g.run[i].key == AccountKey(g.passed[i].scope, Clean(Some(g.passed[i].identifier)))
  }

  lemma HitKeepsGate(g: Gate, h: Hit, key: string, w: Option<Waiting>)
    requires GateSafe(g, key) && forall k | 0 <= k < |g.run| :: g.run[k].now <= h.now
    requires h.key == key ==> h.limit == IDENTIFIER_LIMIT && h.windowSeconds == IDENTIFIER_WINDOW_SECONDS
    ensures GateSafe(g.(run := g.run + [h]), key)
    ensures Enforced(StoreAfter(g.run), h).0.Admitted?
            && w.Some? && h.key == AccountKey(w.value.scope, Clean(Some(w.value.identifier))) ==>
              GateSafe(g.(run := g.run + [h], passed := g.passed[|g.run| := w.value]), key)
  {
    VerdictOfLast(g.run, h);
    forall i | i in g.passed
      ensures i < |g.run| && (g.run + [h])[i] == g.run[i] && VerdictAt(g.run + [h], i).Admitted?
    {
      VerdictOfPrefix(g.run, h, i);
    }
  }

  lemma MoveKeepsGate(g: Gate, m: Move, ipLimit: int, ipWindow: int, key: string)
    requires GateSafe(g, key) && Possible(g, m)
    requires At(m).Some? ==> forall k | 0 <= k < |g.run| :: g.run[k].now <= At(m).value
    requires m.Enter? ==> m.scope + ":ip:" + m.ip != key
    ensures GateSafe(Moved(g, m, ipLimit, ipWindow), key)
  {
    match m
    case Enter(_, _, _, _, _, _) => HitKeepsGate(g, EnterHit(m, ipLimit, ipWindow), key, None);
    case Count(p, _, _) => HitKeepsGate(g, CountHit(g.waiting[p], m), key, Some(g.waiting[p]));
    case Leave(_) =>
  }

  lemma {:induction false} GateOverMoves(moves: seq<Move>, ipLimit: int, ipWindow: int, key: string)
    requires Makes(moves, ipLimit, ipWindow) && Orderly(moves, key)
    ensures GateSafe(Through(moves, ipLimit, ipWindow), key)
    ensures forall k | 0 <= k < |Through(moves, ipLimit, ipWindow).run| ::
              exists j :: 0 <= j < |moves| && At(moves[j]) == Some(Through(moves, ipLimit, ipWindow).run[k].now)
  {
    if moves != [] {
      var n := |moves| - 1;
      var g, m := Through(moves[..n], ipLimit, ipWindow), moves[n];
      GateOverMoves(moves[..n], ipLimit, ipWindow, key);
      forall k | 0 <= k < |g.run|
        ensures exists j :: 0 <= j < n && At(moves[j]) == Some(g.run[k].now)
      {
        var j :| 0 <= j < n && At(moves[..n][j]) == Some(g.run[k].now);
        assert At(moves[j]) == Some(g.run[k].now);
      }
      MoveKeepsGate(g, m, ipLimit, ipWindow, key);
    }
  }

  /** The passed attempts on one account in an interval, however they spelled it, by their
      identifier hits. */
  ghost function PassedOn(g: Gate, scope: string, account: string, from: int, to: int): set<nat> {
    set i | i in g.passed && i < |g.run| && g.passed[i].scope == scope
            && Clean(Some(g.passed[i].identifier)) == account && from <= g.run[i].now <= to
  }

  lemma {:induction false} SubsetBound(a: set<nat>, b: set<nat>)
    requires a <= b
    ensures |a| <= |b|
  {
    assert b == a + (b - a);
  }

  lemma PassedAreAdmitted(g: Gate, scope: string, account: string, from: int, to: int)
    requires GateSafe(g, AccountKey(scope, account))
    ensures |PassedOn(g, scope, account, from, to)|
            <= |AdmittedIn(g.run, AccountKey(scope, account), from, to)|
  {
    SubsetBound(PassedOn(g, scope, account, from, to), AdmittedIn(g.run, AccountKey(scope, account), from, to));
  }

  lemma GateBound(g: Gate, scope: string, account: string, from: int, to: int)
    requires GateSafe(g, AccountKey(scope, account)) && to == from + 300000
    ensures |PassedOn(g, scope, account, from, to)| <= 20 + |LostIn(g.run, AccountKey(scope, account), from, to)|
  {
    var key := AccountKey(scope, account);
    PassedAreAdmitted(g, scope, account, from, to);
    IntervalBound(g.run, key, IDENTIFIER_LIMIT, IDENTIFIER_WINDOW_SECONDS, from);
  }

  function ScopesEntered(moves: seq<Move>): set<string> {
    set k | 0 <= k < |moves| && moves[k].Enter? :: moves[k].scope
  }

  /** Redis runs the scripts in clock order. */
  ghost predicate ClockOrder(moves: seq<Move>) {
    forall i, j | 0 <= i < j < |moves| && At(moves[i]).Some? && At(moves[j]).Some? ::
      At(moves[i]).value <= At(moves[j]).value
  }

  lemma SeparateIsOrderly(moves: seq<Move>, scope: string, account: string)
    requires ClockOrder(moves) && Separate(ScopesEntered(moves), scope, account)
    ensures Orderly(moves, AccountKey(scope, account))
  {
    forall i | 0 <= i < |moves| && moves[i].Enter?
      ensures moves[i].scope + ":ip:" + moves[i].ip != AccountKey(scope, account)
    {
      SeparateApart(ScopesEntered(moves), moves[i].scope, moves[i].ip, scope, account);
    }
  }

  /** The bound on an account holds however the two calls of concurrent attempts interleave. */
  lemma InterleavedBound(moves: seq<Move>, ipLimit: int, ipWindow: int, scope: string, account: string,
                         from: int, to: int)
    requires Makes(moves, ipLimit, ipWindow) && ClockOrder(moves)
    requires Separate(ScopesEntered(moves), scope, account) && to == from + 300000
    ensures var g := Through(moves, ipLimit, ipWindow);
            |PassedOn(g, scope, account, from, to)| <= 20 + |LostIn(g.run, scope + ":id:" + account, from, to)|
  {
    SeparateIsOrderly(moves, scope, account);
    GateOverMoves(moves, ipLimit, ipWindow, AccountKey(scope, account));
    GateBound(Through(moves, ipLimit, ipWindow), scope, account, from, to);
  }
}
