/**
 Delegating authority to new tokens. A grant may be passed on only by a delegable
 grant that covers it, so along any chain of token creations authority never grows.
 */
module Authority {
  import opened Bytes

  const I64_MAX: int := 0x7FFF_FFFF_FFFF_FFFF

  /** `limits` stands for the remaining fields, which are only compared for equality. */
  datatype Constraints = Constraints(allResources: bool, endpoints: seq<bytes>, limits: bytes)

  /** An expiry of 0 is no expiry. */
  datatype Grant = Grant(capability: int, delegable: bool, expiry: int, constraints: Option<Constraints>)

  datatype Request = Request(expiry: int, grants: seq<Grant>)

  datatype Verdict = Granted | InvalidArgument | PermissionDenied

  // ----- covering -----------------------------------------------------------

  predicate ExpiryCovers(issuer: int, requested: int) {
    issuer == 0 || (requested != 0 && requested <= issuer)
  }

  predicate ConstraintsCover(issuer: Option<Constraints>, requested: Option<Constraints>) {
    issuer.None? || issuer.value.allResources || issuer == requested
  }

  predicate Covers(issuer: Grant, g: Grant) {
    issuer.capability == g.capability && issuer.expiry >= 0
    && ExpiryCovers(issuer.expiry, g.expiry) && ConstraintsCover(issuer.constraints, g.constraints)
  }

  lemma CoversReflexive(g: Grant)
    requires g.expiry >= 0
    ensures Covers(g, g)
  {
  }

  lemma CoversTransitive(a: Grant, b: Grant, c: Grant)
    requires Covers(a, b) && Covers(b, c)
    ensures Covers(a, c)
  {
  }

  // ----- what a set of grants allows ----------------------------------------

  /** `known` tells the assigned capability numbers other than the unspecified one. */
  predicate Active(known: int -> bool, g: Grant, now: nat) {
    known(g.capability) && g.expiry >= 0 && (g.expiry == 0 || now < g.expiry)
  }

  predicate Reaches(constraints: Option<Constraints>, endpoint: bytes) {
    constraints.None? || constraints.value.allResources || endpoint in constraints.value.endpoints
  }

  predicate Allows(known: int -> bool, grants: seq<Grant>, capability: int, endpoint: bytes, now: nat) {
    exists i :: 0 <= i < |grants| && grants[i].capability == capability && Active(known, grants[i], now)
                && Reaches(grants[i].constraints, endpoint)
  }

  /** A covering grant allows whatever the covered one allows, at every time and for every endpoint. */
  lemma CoverMeansAllow(known: int -> bool, issuer: Grant, g: Grant, endpoint: bytes, now: nat)
    requires Covers(issuer, g) && Active(known, g, now) && Reaches(g.constraints, endpoint)
    ensures Active(known, issuer, now) && Reaches(issuer.constraints, endpoint)
  {
  }

  // ----- authorising a creation ---------------------------------------------

  predicate MayDelegate(issuer: Grant, g: Grant, now: nat) {
    var clock := if now > I64_MAX then I64_MAX else now;
    issuer.capability == g.capability && issuer.delegable && issuer.expiry >= 0
    && ExpiryCovers(issuer.expiry, g.expiry) && ConstraintsCover(issuer.constraints, g.constraints)
    && (issuer.expiry == 0 || issuer.expiry > clock)
  }

  predicate Backed(issuer: seq<Grant>, g: Grant, now: nat) {
    exists i :: 0 <= i < |issuer| && MayDelegate(issuer[i], g, now)
  }

  function CheckGrant(known: int -> bool, issuer: seq<Grant>, request: Request, g: Grant, now: nat): Verdict {
    if !known(g.capability) then InvalidArgument
    else if g.expiry < 0 || (g.expiry > 0 && request.expiry > 0 && g.expiry > request.expiry)
            || !Backed(issuer, g, now) then PermissionDenied
    else Granted
  }

  /** The first grant that fails decides the error. */
  function CheckGrants(known: int -> bool, issuer: seq<Grant>, request: Request, i: nat, now: nat): Verdict
    requires i <= |request.grants|
    decreases |request.grants| - i
  {
    if i == |request.grants| then Granted
    else
      var verdict := CheckGrant(known, issuer, request, request.grants[i], now);
      if verdict != Granted then verdict else CheckGrants(known, issuer, request, i + 1, now)
  }

  function Authorize(known: int -> bool, issuer: seq<Grant>, request: Request, now: nat): Verdict {
    if request.expiry < 0 then InvalidArgument else CheckGrants(known, issuer, request, 0, now)
  }

  lemma {:induction false} CheckGrantsExact(
    known: int -> bool, issuer: seq<Grant>, request: Request, i: nat, now: nat)
    requires i <= |request.grants|
    ensures CheckGrants(known, issuer, request, i, now) == Granted
            <==> forall k :: i <= k < |request.grants| ==>
                   CheckGrant(known, issuer, request, request.grants[k], now) == Granted
    decreases |request.grants| - i
  {
    if i < |request.grants| {
      CheckGrantsExact(known, issuer, request, i + 1, now);
    }
  }

  /** An authorised request holds only grants covered by a delegable grant of the issuer. */
  lemma AuthorizedIsCovered(known: int -> bool, issuer: seq<Grant>, request: Request, now: nat, k: nat) returns (i: nat)
    requires Authorize(known, issuer, request, now) == Granted && k < |request.grants|
    ensures i < |issuer| && issuer[i].delegable && Covers(issuer[i], request.grants[k])
    ensures known(request.grants[k].capability) && request.grants[k].expiry >= 0
  {
    CheckGrantsExact(known, issuer, request, 0, now);
    var g := request.grants[k];
    assert CheckGrant(known, issuer, request, g, now) == Granted;
    i :| 0 <= i < |issuer| && MayDelegate(issuer[i], g, now);
  }

  // ----- exactly when a creation is authorised ------------------------------

  /** The clock as a signed 64-bit number. */
  function Clock(now: nat): nat {
    if now > 0x7FFF_FFFF_FFFF_FFFF then 0x7FFF_FFFF_FFFF_FFFF else now
  }

  /** A grant that may be asked for: a known capability that does not outlive the token. */
  predicate Askable(known: int -> bool, request: Request, g: Grant) {
    known(g.capability) && g.expiry >= 0 && (g.expiry == 0 || request.expiry <= 0 || g.expiry <= request.expiry)
  }

  /** The issuer holds, delegable and alive now, the same capability for at least as long and at least as widely. */
  predicate Backs(known: int -> bool, held: Grant, g: Grant, now: nat) {
    held.delegable && held.capability == g.capability && Active(known, held, Clock(now))
    && (held.expiry == 0 || 0 < g.expiry <= held.expiry)
    && (held.constraints.None? || held.constraints.value.allResources || held.constraints == g.constraints)
  }

  ghost predicate BackedByOne(known: int -> bool, issuer: seq<Grant>, g: Grant, now: nat) {
    exists i :: 0 <= i < |issuer| && Backs(known, issuer[i], g, now)
  }

  lemma BackedExactly(known: int -> bool, issuer: seq<Grant>, request: Request, g: Grant, now: nat)
    ensures CheckGrant(known, issuer, request, g, now) == Granted
            <==> Askable(known, request, g) && BackedByOne(known, issuer, g, now)
    ensures CheckGrant(known, issuer, request, g, now) == InvalidArgument <==> !known(g.capability)
  {
    if g.expiry >= 0 && known(g.capability) {
      if Backed(issuer, g, now) {
        var i :| 0 <= i < |issuer| && MayDelegate(issuer[i], g, now);
        assert Backs(known, issuer[i], g, now);
      }
      if BackedByOne(known, issuer, g, now) {
        var i :| 0 <= i < |issuer| && Backs(known, issuer[i], g, now);
        assert MayDelegate(issuer[i], g, now);
      }
    }
  }

  /**
   A creation is authorised exactly when the token has a valid expiry and each of its grants may be asked for and is
   backed by a grant of the issuer that is alive at that moment.
   */
  lemma AuthorizedExactly(known: int -> bool, issuer: seq<Grant>, request: Request, now: nat)
    ensures Authorize(known, issuer, request, now) == Granted
            <==> request.expiry >= 0
                 && forall k :: 0 <= k < |request.grants| ==>
                      Askable(known, request, request.grants[k]) && BackedByOne(known, issuer, request.grants[k], now)
  {
    CheckGrantsExact(known, issuer, request, 0, now);
    forall k | 0 <= k < |request.grants|
      ensures CheckGrant(known, issuer, request, request.grants[k], now) == Granted
              <==> Askable(known, request, request.grants[k]) && BackedByOne(known, issuer, request.grants[k], now)
    {
      BackedExactly(known, issuer, request, request.grants[k], now);
    }
  }

  /** The grants from `i` up to `k` pass. */
  ghost predicate PassUpTo(known: int -> bool, issuer: seq<Grant>, request: Request, i: nat, k: nat, now: nat)
    requires k <= |request.grants|
  {
    forall j :: i <= j < k ==>
      Askable(known, request, request.grants[j]) && BackedByOne(known, issuer, request.grants[j], now)
  }

  lemma {:induction false} InvalidFrom(known: int -> bool, issuer: seq<Grant>, request: Request, i: nat, now: nat)
    requires i <= |request.grants|
    ensures CheckGrants(known, issuer, request, i, now) == InvalidArgument
            <==> exists k :: i <= k < |request.grants| && !known(request.grants[k].capability)
                             && PassUpTo(known, issuer, request, i, k, now)
    decreases |request.grants| - i
  {
    if i < |request.grants| {
      InvalidFrom(known, issuer, request, i + 1, now);
      BackedExactly(known, issuer, request, request.grants[i], now);
      assert PassUpTo(known, issuer, request, i, i, now);
      if CheckGrant(known, issuer, request, request.grants[i], now) == Granted {
        forall k | i < k < |request.grants|
          ensures PassUpTo(known, issuer, request, i, k, now) <==> PassUpTo(known, issuer, request, i + 1, k, now)
        {
        }
      } else {
        forall k | i < k < |request.grants| ensures !PassUpTo(known, issuer, request, i, k, now) {
        }
      }
    }
  }

  /** It is invalid, rather than denied, exactly for a bad expiry or an unknown capability after grants that pass. */
  lemma InvalidExactly(known: int -> bool, issuer: seq<Grant>, request: Request, now: nat)
    ensures Authorize(known, issuer, request, now) == InvalidArgument
            <==> request.expiry < 0
                 || exists k :: 0 <= k < |request.grants| && !known(request.grants[k].capability)
                                && PassUpTo(known, issuer, request, 0, k, now)
  {
    InvalidFrom(known, issuer, request, 0, now);
  }

  /** An issuer all of whose delegable grants have run out creates no token with a grant. */
  lemma ExpiredCreatesNothing(known: int -> bool, issuer: seq<Grant>, request: Request, now: nat)
    requires forall i :: 0 <= i < |issuer| && issuer[i].delegable ==> !Active(known, issuer[i], Clock(now))
    requires request.grants != []
    ensures Authorize(known, issuer, request, now) != Granted
  {
    AuthorizedExactly(known, issuer, request, now);
    assert Authorize(known, issuer, request, now) == Granted ==> BackedByOne(known, issuer, request.grants[0], now);
  }

  /** A delegable grant that is alive can be passed on as it is, delegable or not. */
  lemma ReissueSucceeds(known: int -> bool, issuer: seq<Grant>, i: nat, delegable: bool, now: nat)
    requires i < |issuer| && issuer[i].delegable && Active(known, issuer[i], Clock(now))
    ensures Authorize(known, issuer, Request(issuer[i].expiry, [issuer[i].(delegable := delegable)]), now) == Granted
  {
    var g := issuer[i].(delegable := delegable);
    AuthorizedExactly(known, issuer, Request(issuer[i].expiry, [g]), now);
    assert Backs(known, issuer[i], g, now);
    assert BackedByOne(known, issuer, g, now);
  }

  // ----- the ledger of tokens -----------------------------------------------

  /** All tokens ever created, who issued them, and which are revoked. */
  datatype Ledger = Ledger(next: nat, grants: map<nat, seq<Grant>>, issuer: map<nat, nat>, revoked: set<nat>)

  /** A token is made by the operator, or by a principal whose request is checked; storing it may fail. */
  datatype Event = Found(grants: seq<Grant>)
                 | Create(principal: nat, request: Request, now: nat, stored: bool)
                 | Revoke(principal: nat)

  function GrantsOf(l: Ledger, p: nat): seq<Grant> {
    if p in l.grants && p !in l.revoked then l.grants[p] else []
  }

  function Next(known: int -> bool, l: Ledger, e: Event): Ledger {
    match e
    case Found(grants) => l.(next := l.next + 1, grants := l.grants[l.next := grants])
    case Create(p, request, now, stored) =>
      if p !in l.grants || p in l.revoked || Authorize(known, GrantsOf(l, p), request, now) != Granted then l
      else if !stored then l.(next := l.next + 1)
      else Ledger(l.next + 1, l.grants[l.next := request.grants], l.issuer[l.next := p], l.revoked)
    case Revoke(p) => l.(revoked := l.revoked + {p})
  }

  function History(known: int -> bool, events: seq<Event>): Ledger {
    if events == [] then Ledger(1, map[], map[], {})
    else Next(known, History(known, events[..|events| - 1]), events[|events| - 1])
  }

  /** Some delegable grant of `issuer` covers `g`. */
  ghost predicate CoveredBy(issuer: seq<Grant>, g: Grant) {
    exists i :: 0 <= i < |issuer| && issuer[i].delegable && Covers(issuer[i], g)
  }

  ghost predicate AllCovered(issuer: seq<Grant>, grants: seq<Grant>) {
    forall k :: 0 <= k < |grants| ==> CoveredBy(issuer, grants[k])
  }

  ghost predicate LedgerInv(l: Ledger) {
    (forall p :: p in l.grants ==> p < l.next)
    && (forall c :: c in l.issuer ==> c in l.grants && l.issuer[c] in l.grants && l.issuer[c] < c)
    && forall c :: c in l.issuer ==> AllCovered(l.grants[l.issuer[c]], l.grants[c])
  }

  lemma NextKeepsInv(known: int -> bool, l: Ledger, e: Event)
    requires LedgerInv(l)
    ensures LedgerInv(Next(known, l, e))
  {
    if e.Create? && Next(known, l, e).issuer != l.issuer {
      var issuer := GrantsOf(l, e.principal);
      forall k | 0 <= k < |e.request.grants| ensures CoveredBy(issuer, e.request.grants[k]) {
        var i := AuthorizedIsCovered(known, issuer, e.request, e.now, k);
      }
    }
  }

  lemma {:induction false} HistoryInv(known: int -> bool, events: seq<Event>)
    ensures LedgerInv(History(known, events))
  {
    if events != [] {
      HistoryInv(known, events[..|events| - 1]);
      NextKeepsInv(known, History(known, events[..|events| - 1]), events[|events| - 1]);
    }
  }

  /** An authorised creation that is stored makes a new token with exactly the grants asked for, issued by its maker. */
  lemma CreatedExactly(known: int -> bool, l: Ledger, p: nat, request: Request, now: nat, stored: bool)
    requires LedgerInv(l)
    ensures var l' := Next(known, l, Create(p, request, now, stored));
            var made := stored && p in l.grants && p !in l.revoked
                        && Authorize(known, l.grants[p], request, now) == Granted;
            (made ==> l.next !in l.grants && l.next in l'.grants && l'.grants[l.next] == request.grants
                      && l.next in l'.issuer && l'.issuer[l.next] == p)
            && (forall t :: t in l'.grants && (t != l.next || !made) ==> t in l.grants && l'.grants[t] == l.grants[t])
            && (forall t :: t in l.grants ==> t in l'.grants && l'.grants[t] == l.grants[t])
            && l'.revoked == l.revoked
  {
  }

  /** A token is revoked exactly from the moment it is, and then it is allowed nothing, whatever happens afterwards. */
  lemma {:induction false} RevokedExactly(known: int -> bool, l: Ledger, events: seq<Event>, p: nat)
    ensures p in After(known, l, events).revoked <==> p in l.revoked || Revoke(p) in events
    ensures p in After(known, l, events).revoked ==> GrantsOf(After(known, l, events), p) == []
  {
    if events != [] {
      var front, last := events[..|events| - 1], events[|events| - 1];
      assert events == front + [last];
      RevokedExactly(known, l, front, p);
    }
  }

  function After(known: int -> bool, l: Ledger, events: seq<Event>): Ledger {
    if events == [] then l else Next(known, After(known, l, events[..|events| - 1]), events[|events| - 1])
  }

  // ----- chains of delegation -----------------------------------------------

  /** Each token of the chain was created by the one before it. */
  ghost predicate Chain(l: Ledger, chain: seq<nat>) {
    |chain| > 0 && chain[0] in l.grants
    && forall i :: 0 < i < |chain| ==> chain[i] in l.issuer && l.issuer[chain[i]] == chain[i - 1]
  }

  /** Every grant at the end of a chain is covered by a delegable grant at its beginning. */
  lemma {:induction false} ChainCovered(known: int -> bool, events: seq<Event>, chain: seq<nat>)
    requires Chain(History(known, events), chain) && |chain| > 1
    ensures var l := History(known, events);
            var last := chain[|chain| - 1];
            last in l.grants && AllCovered(l.grants[chain[0]], l.grants[last])
    decreases |chain|
  {
    HistoryInv(known, events);
    var l := History(known, events);
    var last := chain[|chain| - 1];
    if |chain| > 2 {
      var front := chain[..|chain| - 1];
      ChainCovered(known, events, front);
      var middle := chain[|chain| - 2];
      forall k | 0 <= k < |l.grants[last]| ensures CoveredBy(l.grants[chain[0]], l.grants[last][k]) {
        CoveredThrough(l.grants[chain[0]], l.grants[middle], l.grants[last][k]);
      }
    }
  }

  lemma CoveredThrough(root: seq<Grant>, middle: seq<Grant>, g: Grant)
    requires AllCovered(root, middle) && CoveredBy(middle, g)
    ensures CoveredBy(root, g)
  {
    var j :| 0 <= j < |middle| && middle[j].delegable && Covers(middle[j], g);
    assert CoveredBy(root, middle[j]);
    var i :| 0 <= i < |root| && root[i].delegable && Covers(root[i], middle[j]);
    CoversTransitive(root[i], middle[j], g);
  }

  /** So whatever a descendant is allowed at any time, the root of its chain was given. */
  lemma NothingGained(
    known: int -> bool, events: seq<Event>, chain: seq<nat>, capability: int, endpoint: bytes, now: nat)
    requires Chain(History(known, events), chain)
    ensures var l := History(known, events);
            chain[|chain| - 1] in l.grants
            && (Allows(known, l.grants[chain[|chain| - 1]], capability, endpoint, now)
                ==> Allows(known, l.grants[chain[0]], capability, endpoint, now))
  {
    if |chain| > 1 {
      ChainCovered(known, events, chain);
      var l := History(known, events);
      var (root, grants) := (l.grants[chain[0]], l.grants[chain[|chain| - 1]]);
      if Allows(known, grants, capability, endpoint, now) {
        var k :| 0 <= k < |grants| && grants[k].capability == capability && Active(known, grants[k], now)
                 && Reaches(grants[k].constraints, endpoint);
        assert CoveredBy(root, grants[k]);
        var i :| 0 <= i < |root| && root[i].delegable && Covers(root[i], grants[k]);
        CoverMeansAllow(known, root[i], grants[k], endpoint, now);
      }
    }
  }
}
