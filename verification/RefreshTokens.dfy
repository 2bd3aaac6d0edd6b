/**
 Refresh-token rotation: the token table, the statements that refresh, sign-in and logout issue
 against it, and the protocol they form when any number of requests interleave and may die.
 */
module RefreshTokens {
  import opened Prelude

  const REFRESH_TTL_MS := 7 * 24 * 3600 * 1000

  // Random identifiers, compared and never computed with.
  type Jti = nat
  type UserId = nat

  datatype Token = Token(user: UserId, revokedAt: Option<int>, replacedBy: Option<Jti>, expiresAt: int)

  type Tokens = map<Jti, Token>

  predicate Active(t: Token) { t.revokedAt.None? }

  // ---------- statements ----------

  // updateMany where jti = .. and revokedAt is null; the claim and the logout are this statement.
  function RevokeOne(ts: Tokens, jti: Jti, now: int): Tokens {
    if jti in ts && Active(ts[jti]) then ts[jti := ts[jti].(revokedAt := Some(now))] else ts
  }

  // updateMany where userId = .. and revokedAt is null
  function RevokeUser(ts: Tokens, user: UserId, now: int): Tokens {
    map j | j in ts :: if ts[j].user == user && Active(ts[j]) then ts[j].(revokedAt := Some(now)) else ts[j]
  }

  function Mint(ts: Tokens, jti: Jti, user: UserId, now: int): Tokens {
    ts[jti := Token(user, None, None, now + REFRESH_TTL_MS)]
  }

  function Link(ts: Tokens, jti: Jti, successor: Jti): Tokens {
    if jti in ts then ts[jti := ts[jti].(replacedBy := Some(successor))] else ts
  }

  // ---------- the protocol ----------

  // Where a request stands. A presented token is whatever a verified signature vouches for.
  datatype Request =
    | Presented(jti: Jti, user: UserId)
    | Checked(jti: Jti, user: UserId)
    | Claimed(jti: Jti, user: UserId)
    | Minted(jti: Jti, user: UserId, successor: Jti)
    | ReuseSeen(user: UserId)
    | SigningIn(user: UserId)

  // Where a token comes from: the sign-in it descends from, its place in the order of minting, and
  // the token it was rotated out of.
  datatype Origin = Origin(lineage: nat, order: nat, parent: Option<Jti>)

  datatype Holder = ByToken(jti: Jti) | ByRequest(r: nat)

  // The service stores tokens only. origin, holder (who last carried a lineage) and claimant (who
  // last claimed a token) are history, kept to state what the protocol guarantees.
  datatype State = State(
    tokens: Tokens, requests: map<nat, Request>,
    origin: map<Jti, Origin>, holder: map<nat, Holder>, claimant: map<Jti, nat>, mints: nat)

  datatype Action =
    | Present(r: nat, jti: Jti, user: UserId)
    | Read(r: nat, now: int, member: bool)
    | Claim(r: nat, now: int)
    | MintSuccessor(r: nat, jti: Jti, now: int)
    | WriteLink(r: nat)
    | AnswerReuse(r: nat, now: int)
    | SignIn(r: nat, user: UserId)
    | MintFirst(r: nat, jti: Jti, now: int)
    | Logout(jti: Jti, now: int)
    | LogoutAll(user: UserId, now: int)
    | Die(r: nat)

  function Drop(s: State, r: nat): State { s.(requests := s.requests - {r}) }

  function Put(s: State, r: nat, q: Request): State { s.(requests := s.requests[r := q]) }

  function Minting(s: State, jti: Jti, user: UserId, now: int, lineage: nat, parent: Option<Jti>): State {
    s.(tokens := Mint(s.tokens, jti, user, now), origin := s.origin[jti := Origin(lineage, s.mints, parent)],
       holder := s.holder[lineage := ByToken(jti)], mints := s.mints + 1)
  }

  function Claiming(s: State, r: nat, jti: Jti, now: int): State
    requires jti in s.origin
  {
    s.(tokens := RevokeOne(s.tokens, jti, now),
       holder := s.holder[s.origin[jti].lineage := ByRequest(r)], claimant := s.claimant[jti := r])
  }

  // One atomic step; an action whose guard fails changes nothing.
  function Step(s: State, a: Action): State {
    match a
    case Present(r, jti, user) => if r in s.requests then s else Put(s, r, Presented(jti, user))
    case SignIn(r, user) => if r in s.requests then s else Put(s, r, SigningIn(user))
    case Logout(jti, now) => s.(tokens := RevokeOne(s.tokens, jti, now))
    case LogoutAll(user, now) => s.(tokens := RevokeUser(s.tokens, user, now))
    case _ => if a.r in s.requests then RequestStep(s, a.r, s.requests[a.r], a) else s
  }

  function RequestStep(s: State, r: nat, q: Request, a: Action): State {
    match (a, q)
    case (Read(_, now, member), Presented(jti, user)) =>
      if jti !in s.tokens || s.tokens[jti].user != user then Drop(s, r)
      else if !Active(s.tokens[jti]) then Put(s, r, ReuseSeen(user))
      else if s.tokens[jti].expiresAt < now || !member then Drop(s, r)
      else Put(s, r, Checked(jti, user))
    case (Claim(_, now), Checked(jti, user)) =>
      if jti in s.tokens && Active(s.tokens[jti])
      then if jti in s.origin then Claiming(Put(s, r, Claimed(jti, user)), r, jti, now) else s
      else Put(s, r, ReuseSeen(user))
    case (MintSuccessor(_, next, now), Claimed(jti, user)) =>
      if next in s.tokens || jti !in s.origin then s
      else Minting(Put(s, r, Minted(jti, user, next)), next, user, now, s.origin[jti].lineage, Some(jti))
    case (WriteLink(_), Minted(jti, user, successor)) => Drop(s, r).(tokens := Link(s.tokens, jti, successor))
    case (AnswerReuse(_, now), ReuseSeen(user)) => Drop(s, r).(tokens := RevokeUser(s.tokens, user, now))
    case (MintFirst(_, next, now), SigningIn(user)) =>
      if next in s.tokens then s else Minting(Drop(s, r), next, user, now, s.mints, None)
    case (Die(_), _) => Drop(s, r)
    case _ => s
  }

  function Exec(s: State, tr: seq<Action>): State {
    if tr == [] then s else Step(Exec(s, tr[..|tr| - 1]), tr[|tr| - 1])
  }

  const INITIAL := State(map[], map[], map[], map[], map[], 0)

  // ---------- the invariant ----------

  predicate InRotation(q: Request) { q.Claimed? || q.Minted? }

  // An active token carries its lineage; a linked or minted successor knows its one parent.
  ghost predicate TokenOk(s: State, j: Jti)
    requires j in s.tokens
  {
    && j in s.origin && s.origin[j].lineage < s.mints && s.origin[j].order < s.mints
    && (Active(s.tokens[j]) ==>
          && s.origin[j].lineage in s.holder && s.holder[s.origin[j].lineage] == ByToken(j)
          && s.tokens[j].replacedBy == None)
    && (s.tokens[j].replacedBy.Some? ==> Succeeds(s, j, s.tokens[j].user, s.tokens[j].replacedBy.value))
  }

  // k was minted in exchange for j: same user, later, and j is its only parent.
  ghost predicate Succeeds(s: State, j: Jti, user: UserId, k: Jti) {
    && j in s.origin && k in s.tokens && k in s.origin
    && s.tokens[k].user == user && s.origin[k].parent == Some(j) && s.origin[j].order < s.origin[k].order
  }

  // A request in a rotation is its token's only claimant; until it mints, it carries the lineage.
  ghost predicate RequestOk(s: State, r: nat)
    requires r in s.requests
  {
    var q := s.requests[r];
    && (q.Checked? || InRotation(q) ==> q.jti in s.tokens && q.jti in s.origin && s.tokens[q.jti].user == q.user)
    && (InRotation(q) ==>
          && !Active(s.tokens[q.jti]) && s.tokens[q.jti].replacedBy == None
          && q.jti in s.claimant && s.claimant[q.jti] == r)
    && (q.Claimed? ==> s.origin[q.jti].lineage in s.holder && s.holder[s.origin[q.jti].lineage] == ByRequest(r))
    && (q.Minted? ==> Succeeds(s, q.jti, q.user, q.successor))
  }

  ghost predicate Inv(s: State) {
    && s.origin.Keys == s.tokens.Keys
    && (forall j | j in s.tokens :: TokenOk(s, j))
    && (forall r | r in s.requests :: RequestOk(s, r))
    && (forall l | l in s.holder :: l < s.mints)
  }

  // What every step does except winning a claim, minting and linking: tokens may get revoked;
  // requests may end, arrive, or move on outside a rotation.
  ghost predicate Quieter(s: State, t: State) {
    && t.origin == s.origin && t.holder == s.holder && t.claimant == s.claimant && t.mints == s.mints
    && t.tokens.Keys == s.tokens.Keys
    && (forall j | j in s.tokens ::
          && t.tokens[j].user == s.tokens[j].user && t.tokens[j].replacedBy == s.tokens[j].replacedBy
          && (Active(t.tokens[j]) ==> Active(s.tokens[j])))
    && (forall r | r in t.requests && (t.requests[r].Checked? || InRotation(t.requests[r])) ::
          || (r in s.requests && t.requests[r] == s.requests[r])
          || (t.requests[r].Checked? && t.requests[r].jti in s.tokens
              && s.tokens[t.requests[r].jti].user == t.requests[r].user))
  }

  lemma QuieterKeepsInv(s: State, t: State)
    requires Inv(s) && Quieter(s, t)
    ensures Inv(t)
  {
    forall j | j in t.tokens ensures TokenOk(t, j) {
      assert TokenOk(s, j);
    }
    forall r | r in t.requests ensures RequestOk(t, r) {
      if r in s.requests {
        assert RequestOk(s, r);
      }
    }
  }

  lemma WonClaimKeepsInv(s: State, r: nat, now: int)
    requires Inv(s) && WinsClaim(s, Claim(r, now))
    ensures Inv(Step(s, Claim(r, now)))
  {
    var t := Step(s, Claim(r, now));
    var jti := s.requests[r].jti;
    assert TokenOk(s, jti);
    forall j | j in t.tokens ensures TokenOk(t, j) {
      assert TokenOk(s, j);
    }
    forall p | p in t.requests ensures RequestOk(t, p) {
      assert RequestOk(s, p);
    }
  }

  lemma MintSuccessorKeepsInv(s: State, r: nat, next: Jti, now: int)
    requires Inv(s) && Mints(s, MintSuccessor(r, next, now))
    ensures Inv(Step(s, MintSuccessor(r, next, now)))
  {
    var t := Step(s, MintSuccessor(r, next, now));
    assert RequestOk(s, r);
    forall j | j in t.tokens ensures TokenOk(t, j) {
      if j != next {
        assert TokenOk(s, j);
      }
    }
    forall p | p in t.requests ensures RequestOk(t, p) {
      assert RequestOk(s, p);
    }
  }

  lemma WriteLinkKeepsInv(s: State, r: nat)
    requires Inv(s) && Links(s, WriteLink(r))
    ensures Inv(Step(s, WriteLink(r)))
  {
    var t := Step(s, WriteLink(r));
    assert RequestOk(s, r);
    forall j | j in t.tokens ensures TokenOk(t, j) {
      assert TokenOk(s, j);
    }
    forall p | p in t.requests ensures RequestOk(t, p) {
      assert RequestOk(s, p);
    }
  }

  lemma MintFirstKeepsInv(s: State, r: nat, next: Jti, now: int)
    requires Inv(s) && Mints(s, MintFirst(r, next, now))
    ensures Inv(Step(s, MintFirst(r, next, now)))
  {
    var t := Step(s, MintFirst(r, next, now));
    forall j | j in t.tokens ensures TokenOk(t, j) {
      if j != next {
        assert TokenOk(s, j);
      }
    }
    forall p | p in t.requests ensures RequestOk(t, p) {
      assert RequestOk(s, p);
    }
  }

  // The steps that are not quiet.
  predicate WinsClaim(s: State, a: Action) {
    a.Claim? && a.r in s.requests && s.requests[a.r].Checked? && s.requests[a.r].jti in s.tokens
        && Active(s.tokens[s.requests[a.r].jti])
  }

  predicate Mints(s: State, a: Action) {
    && (a.MintSuccessor? || a.MintFirst?) && a.r in s.requests && a.jti !in s.tokens
    && (if a.MintFirst? then s.requests[a.r].SigningIn? else s.requests[a.r].Claimed?)
  }

  predicate Links(s: State, a: Action) {
    a.WriteLink? && a.r in s.requests && s.requests[a.r].Minted?
  }

  lemma OtherStepsAreQuiet(s: State, a: Action)
    requires !WinsClaim(s, a) && !Mints(s, a) && !Links(s, a)
    ensures Quieter(s, Step(s, a))
  {
    if !a.Present? && !a.SignIn? && !a.Logout? && !a.LogoutAll? && a.r in s.requests {
      OtherRequestStepsAreQuiet(s, a.r, s.requests[a.r], a);
    }
  }

  lemma OtherRequestStepsAreQuiet(s: State, r: nat, q: Request, a: Action)
    requires r in s.requests && s.requests[r] == q
    requires !a.Present? && !a.SignIn? && !a.Logout? && !a.LogoutAll? && a.r == r
    requires !WinsClaim(s, a) && !Mints(s, a) && !Links(s, a)
    ensures Quieter(s, RequestStep(s, r, q, a))
  {
    var t := RequestStep(s, r, q, a);
    match a
    case Read(_, _, _) => assert t.tokens == s.tokens;
    case AnswerReuse(_, now) => assert q.ReuseSeen? ==> t == Drop(s, r).(tokens := RevokeUser(s.tokens, q.user, now));
    case Claim(_, _) => assert t.tokens == s.tokens;
    case Die(_) => assert t == Drop(s, r);
    case _ =>
  }

  lemma StepKeepsInv(s: State, a: Action)
    requires Inv(s)
    ensures Inv(Step(s, a))
  {
    if WinsClaim(s, a) {
      WonClaimKeepsInv(s, a.r, a.now);
    } else if Mints(s, a) {
      if a.MintFirst? {
        MintFirstKeepsInv(s, a.r, a.jti, a.now);
      } else {
        MintSuccessorKeepsInv(s, a.r, a.jti, a.now);
      }
    } else if Links(s, a) {
      WriteLinkKeepsInv(s, a.r);
    } else {
      OtherStepsAreQuiet(s, a);
      QuieterKeepsInv(s, Step(s, a));
    }
  }

  lemma {:induction false} RunsKeepInv(tr: seq<Action>)
    ensures Inv(Exec(INITIAL, tr))
  {
    if tr != [] {
      RunsKeepInv(tr[..|tr| - 1]);
      StepKeepsInv(Exec(INITIAL, tr[..|tr| - 1]), tr[|tr| - 1]);
    }
  }

  // ---------- one active token per sign-in ----------

  ghost function ActiveTokens(s: State, lineage: nat): set<Jti> {
    set j | j in s.tokens && j in s.origin && s.origin[j].lineage == lineage && Active(s.tokens[j])
  }

  // Requests that have claimed a token of the lineage and not yet minted its successor.
  ghost function InFlight(s: State, lineage: nat): set<nat> {
    set r | r in s.requests && s.requests[r].Claimed? && s.requests[r].jti in s.origin
        && s.origin[s.requests[r].jti].lineage == lineage
  }

  // Whatever overlaps, and wherever a request dies, a sign-in never has two live descendants.
  lemma OneHolderPerLineage(tr: seq<Action>, lineage: nat)
    ensures |ActiveTokens(Exec(INITIAL, tr), lineage)| + |InFlight(Exec(INITIAL, tr), lineage)| <= 1
  {
    var s := Exec(INITIAL, tr);
    RunsKeepInv(tr);
    forall j | j in ActiveTokens(s, lineage) ensures lineage in s.holder && s.holder[lineage] == ByToken(j) {
      assert TokenOk(s, j);
    }
    forall r | r in InFlight(s, lineage) ensures lineage in s.holder && s.holder[lineage] == ByRequest(r) {
      assert RequestOk(s, r);
    }
    AtMostOneElement(ActiveTokens(s, lineage));
    AtMostOneElement(InFlight(s, lineage));
    if r :| r in InFlight(s, lineage) {
      assert ActiveTokens(s, lineage) == {};
    }
  }

  // ---------- revocation and links are for ever ----------

  lemma StepIsMonotone(s: State, a: Action, j: Jti)
    requires Inv(s) && j in s.tokens
    ensures
      var t := Step(s, a);
      && j in t.tokens
      && (s.tokens[j].revokedAt.Some? ==> t.tokens[j].revokedAt == s.tokens[j].revokedAt)
      && (s.tokens[j].replacedBy.Some? ==> t.tokens[j].replacedBy == s.tokens[j].replacedBy)
  {
    if Links(s, a) {
      assert RequestOk(s, a.r);
    }
  }

  // A revocation is never cleared or overwritten, and a token gets at most one successor.
  lemma {:induction false} RevocationIsMonotone(tr: seq<Action>, k: nat, j: Jti)
    requires k <= |tr| && j in Exec(INITIAL, tr[..k]).tokens
    ensures
      var earlier, later := Exec(INITIAL, tr[..k]).tokens[j], Exec(INITIAL, tr).tokens;
      && j in later
      && (earlier.revokedAt.Some? ==> later[j].revokedAt == earlier.revokedAt)
      && (earlier.replacedBy.Some? ==> later[j].replacedBy == earlier.replacedBy)
    decreases |tr|
  {
    if k == |tr| {
      assert tr[..k] == tr;
    } else {
      var n := |tr| - 1;
      assert tr[..n][..k] == tr[..k];
      RevocationIsMonotone(tr[..n], k, j);
      RunsKeepInv(tr[..n]);
      StepIsMonotone(Exec(INITIAL, tr[..n]), tr[n], j);
    }
  }

  // Follow n links.
  ghost function Follow(ts: Tokens, j: Jti, n: nat): Option<Jti>
    decreases n
  {
    if j !in ts then None
    else if n == 0 then Some(j)
    else if ts[j].replacedBy.None? then None
    else Follow(ts, ts[j].replacedBy.value, n - 1)
  }

  lemma {:induction false} FollowGoesForward(s: State, j: Jti, n: nat)
    requires Inv(s) && j in s.tokens && Follow(s.tokens, j, n).Some?
    ensures
      var k := Follow(s.tokens, j, n).value;
      && k in s.tokens && s.tokens[k].user == s.tokens[j].user
      && s.origin[j].order + n <= s.origin[k].order
    decreases n
  {
    assert TokenOk(s, j);
    if n > 0 {
      FollowGoesForward(s, s.tokens[j].replacedBy.value, n - 1);
    }
  }

  // Links leave revoked tokens only and stay with one user; two never meet; following them never
  // comes back.
  lemma LinksFormChains(tr: seq<Action>, i: Jti, j: Jti, n: nat)
    requires
      var ts := Exec(INITIAL, tr).tokens;
      i in ts && j in ts && ts[i].replacedBy.Some?
    ensures
      var ts := Exec(INITIAL, tr).tokens;
      && !Active(ts[i])
      && ts[i].replacedBy.value in ts && ts[ts[i].replacedBy.value].user == ts[i].user
      && (ts[j].replacedBy == ts[i].replacedBy ==> i == j)
      && (n > 0 ==> Follow(ts, i, n) != Some(i))
  {
    var s := Exec(INITIAL, tr);
    RunsKeepInv(tr);
    assert TokenOk(s, i) && TokenOk(s, j);
    if n > 0 && Follow(s.tokens, i, n) == Some(i) {
      FollowGoesForward(s, i, n);
    }
  }

  // ---------- reuse detection ----------

  ghost predicate SignedOut(s: State, user: UserId) {
    forall j | j in s.tokens && s.tokens[j].user == user :: !Active(s.tokens[j])
  }

  ghost predicate RotationInFlight(s: State, user: UserId) {
    exists r :: r in s.requests && s.requests[r].Claimed? && s.requests[r].user == user
  }

  // A sign-in of the user storing its token.
  predicate SignsIn(s: State, a: Action, user: UserId) {
    a.MintFirst? && a.r in s.requests && s.requests[a.r] == SigningIn(user) && a.jti !in s.tokens
  }

  ghost predicate NoSignIn(s: State, tr: seq<Action>, user: UserId) {
    forall k | 0 <= k < |tr| :: !SignsIn(Exec(s, tr[..k]), tr[k], user)
  }

  lemma AnsweringRevokesEverything(s: State, a: Action)
    requires a.AnswerReuse? && a.r in s.requests && s.requests[a.r].ReuseSeen?
    ensures SignedOut(Step(s, a), s.requests[a.r].user)
    ensures forall j | j in s.tokens :: s.tokens[j].user != s.requests[a.r].user ==> Step(s, a).tokens[j] == s.tokens[j]
  {
  }

  lemma NoSignInPrefix(s: State, tr: seq<Action>, n: nat, user: UserId)
    requires n <= |tr| && NoSignIn(s, tr, user)
    ensures NoSignIn(s, tr[..n], user)
  {
    forall k | 0 <= k < n ensures !SignsIn(Exec(s, tr[..n][..k]), tr[..n][k], user) {
      assert tr[..n][..k] == tr[..k];
    }
  }

  lemma {:induction false} SignedOutLasts(s: State, tr: seq<Action>, user: UserId)
    requires Inv(s) && SignedOut(s, user) && !RotationInFlight(s, user) && NoSignIn(s, tr, user)
    ensures Inv(Exec(s, tr)) && SignedOut(Exec(s, tr), user) && !RotationInFlight(Exec(s, tr), user)
  {
    if tr != [] {
      var n := |tr| - 1;
      var before := Exec(s, tr[..n]);
      NoSignInPrefix(s, tr, n, user);
      SignedOutLasts(s, tr[..n], user);
      StepKeepsInv(before, tr[n]);
      SignedOutStep(before, tr[n], user);
    }
  }

  lemma SignedOutStep(s: State, a: Action, user: UserId)
    requires Inv(s) && SignedOut(s, user) && !RotationInFlight(s, user) && !SignsIn(s, a, user)
    ensures SignedOut(Step(s, a), user) && !RotationInFlight(Step(s, a), user)
  {
    NoRotationStarts(s, a, user);
  }

  lemma NoRotationStarts(s: State, a: Action, user: UserId)
    requires Inv(s) && SignedOut(s, user) && !RotationInFlight(s, user)
    ensures !RotationInFlight(Step(s, a), user)
  {
    var t := Step(s, a);
    if WinsClaim(s, a) {
      assert RequestOk(s, a.r);
      assert s.requests[a.r].user != user;
    }
    forall r | r in t.requests && t.requests[r].Claimed? ensures t.requests[r].user != user {
      if r in s.requests && s.requests[r].Claimed? {
        assert s.requests[r].user != user;
      }
    }
  }

  // Once a replay has been answered, the user stays signed out until the next sign-in, exactly
  // when no other rotation of theirs had claimed its token and not yet minted: such a winner still
  // mints after the revocation.
  lemma ReplaySignsOutIffNoRotationInFlight(before: seq<Action>, a: Action)
    requires
      var s := Exec(INITIAL, before);
      a.AnswerReuse? && a.r in s.requests && s.requests[a.r].ReuseSeen?
    ensures
      var user := Exec(INITIAL, before).requests[a.r].user;
      var s := Step(Exec(INITIAL, before), a);
      (forall tr :: NoSignIn(s, tr, user) ==> SignedOut(Exec(s, tr), user)) <==> !RotationInFlight(s, user)
  {
    RunsKeepInv(before);
    var user := Exec(INITIAL, before).requests[a.r].user;
    var s := Step(Exec(INITIAL, before), a);
    StepKeepsInv(Exec(INITIAL, before), a);
    AnsweringRevokesEverything(Exec(INITIAL, before), a);
    if RotationInFlight(s, user) {
      var r :| r in s.requests && s.requests[r].Claimed? && s.requests[r].user == user;
      var j := FreshNumber(s.tokens.Keys);
      assert RequestOk(s, r);
      var tr := [MintSuccessor(r, j, 0)];
      assert tr[..0] == [] && Exec(s, tr[..0]) == s;
      assert NoSignIn(s, tr, user);
      assert j in Exec(s, tr).tokens && Active(Exec(s, tr).tokens[j]);
      assert !SignedOut(Exec(s, tr), user);
    } else {
      forall tr | NoSignIn(s, tr, user) ensures SignedOut(Exec(s, tr), user) {
        SignedOutLasts(s, tr, user);
      }
    }
  }

  // ---------- a whole refresh is a run of the protocol ----------

  lemma ExecSnoc(s: State, tr: seq<Action>, a: Action)
    ensures Exec(s, tr + [a]) == Step(Exec(s, tr), a)
  {
    assert (tr + [a])[..|tr|] == tr;
  }

  lemma ExecTwo(s: State, a: Action, b: Action)
    ensures Exec(s, [a, b]) == Step(Step(s, a), b)
  {
    assert [a, b] == [a] + [b] && [a] == [] + [a];
    ExecSnoc(s, [], a);
    ExecSnoc(s, [a], b);
  }

  // The table an accepted refresh leaves: the presented token revoked and linked, its successor new.
  function Rotated(ts: Tokens, jti: Jti, next: Jti, now: int): Tokens
    requires jti in ts
  {
    ts[jti := Token(ts[jti].user, Some(now), Some(next), ts[jti].expiresAt)]
      [next := Token(ts[jti].user, None, None, now + REFRESH_TTL_MS)]
  }

  lemma CheckedRun(s: State, r: nat, jti: Jti, now: int)
    requires r !in s.requests && jti in s.tokens
    requires Active(s.tokens[jti]) ==> s.tokens[jti].expiresAt >= now
    ensures
      var user := s.tokens[jti].user;
      Exec(s, [Present(r, jti, user), Read(r, now, true)])
      == Put(s, r, if Active(s.tokens[jti]) then Checked(jti, user) else ReuseSeen(user))
  {
    var user := s.tokens[jti].user;
    ExecSnoc(s, [], Present(r, jti, user));
    ExecSnoc(s, [Present(r, jti, user)], Read(r, now, true));
    assert [] + [Present(r, jti, user)] == [Present(r, jti, user)];
    assert [Present(r, jti, user)] + [Read(r, now, true)] == [Present(r, jti, user), Read(r, now, true)];
    var q := if Active(s.tokens[jti]) then Checked(jti, user) else ReuseSeen(user);
    assert s.requests[r := Presented(jti, user)][r := q] == s.requests[r := q];
  }

  lemma ReuseRun(s: State, r: nat, user: UserId, now: int)
    requires r in s.requests && s.requests[r] == ReuseSeen(user)
    ensures Step(s, AnswerReuse(r, now)) == Drop(s, r).(tokens := RevokeUser(s.tokens, user, now))
  {
  }

  // The steps of a refresh of a known token; rival is when another request revokes it in between.
  function RefreshScript(s: State, r: nat, jti: Jti, next: Jti, now: int, rival: Option<int>): seq<Action>
    requires jti in s.tokens
  {
    [Present(r, jti, s.tokens[jti].user), Read(r, now, true)]
    + if !Active(s.tokens[jti]) then [AnswerReuse(r, now)]
      else if rival.Some? then [Logout(jti, rival.value), Claim(r, now), AnswerReuse(r, now)]
      else [Claim(r, now), MintSuccessor(r, next, now), WriteLink(r)]
  }

  lemma ExecThree(s: State, a: Action, b: Action, c: Action)
    ensures Exec(s, [a, b, c]) == Step(Step(Step(s, a), b), c)
  {
    assert [a, b, c] == [] + [a] + [b] + [c];
    ExecSnoc(s, [], a);
    ExecSnoc(s, [] + [a], b);
    ExecSnoc(s, [] + [a] + [b], c);
  }

  lemma {:induction false} ExecAppend(s: State, a: seq<Action>, b: seq<Action>)
    ensures Exec(s, a + b) == Exec(Exec(s, a), b)
  {
    if b == [] {
      assert a + b == a;
    } else {
      var k := |b| - 1;
      ExecAppend(s, a, b[..k]);
      assert a + b == (a + b[..k]) + [b[k]];
      ExecSnoc(s, a + b[..k], b[k]);
    }
  }

  // A rotation that nobody disturbs, replays of a revoked token, and a rotation that loses its claim
  // to another revocation: each leaves the table the service's refresh leaves.
  lemma RefreshIsARun(s: State, r: nat, jti: Jti, next: Jti, now: int, rival: Option<int>)
    requires Inv(s) && r !in s.requests && jti in s.tokens && next !in s.tokens
    requires Active(s.tokens[jti]) ==> s.tokens[jti].expiresAt >= now
    ensures
      var t, ts, user := Exec(s, RefreshScript(s, r, jti, next, now, rival)), s.tokens, s.tokens[jti].user;
      && t.requests == s.requests
      && t.tokens == if !Active(ts[jti]) then RevokeUser(ts, user, now)
                     else if rival.Some? then RevokeUser(RevokeOne(ts, jti, rival.value), user, now)
                     else Rotated(ts, jti, next, now)
  {
    var user := s.tokens[jti].user;
    var s2 := Put(s, r, if Active(s.tokens[jti]) then Checked(jti, user) else ReuseSeen(user));
    assert s2.requests - {r} == s.requests;
    CheckedRun(s, r, jti, now);
    if !Active(s.tokens[jti]) {
      ExecSnoc(s, [Present(r, jti, user), Read(r, now, true)], AnswerReuse(r, now));
      ReuseRun(s2, r, user, now);
    } else if rival.Some? {
      LostClaimRun(s2, r, jti, now, rival.value);
      AfterTheCheck(s, s2, r, jti, now, Logout(jti, rival.value), Claim(r, now), AnswerReuse(r, now));
    } else {
      RotationRun(s2, r, jti, next, now);
      AfterTheCheck(s, s2, r, jti, now, Claim(r, now), MintSuccessor(r, next, now), WriteLink(r));
    }
  }

  lemma AfterTheCheck(s: State, s2: State, r: nat, jti: Jti, now: int, a: Action, b: Action, c: Action)
    requires jti in s.tokens && Exec(s, [Present(r, jti, s.tokens[jti].user), Read(r, now, true)]) == s2
    ensures
      Exec(s, [Present(r, jti, s.tokens[jti].user), Read(r, now, true)] + [a, b, c]) == Step(Step(Step(s2, a), b), c)
  {
    ExecAppend(s, [Present(r, jti, s.tokens[jti].user), Read(r, now, true)], [a, b, c]);
    ExecThree(s2, a, b, c);
  }

  // An unknown token, another user's, an expired one and a revoked membership are turned away and
  // leave everything as it was.
  lemma RejectedRefreshIsARun(s: State, r: nat, jti: Jti, user: UserId, now: int, member: bool)
    requires r !in s.requests
    requires
      || jti !in s.tokens || s.tokens[jti].user != user
      || (Active(s.tokens[jti]) && (s.tokens[jti].expiresAt < now || !member))
    ensures Exec(s, [Present(r, jti, user), Read(r, now, member)]) == s
  {
    var s1 := Put(s, r, Presented(jti, user));
    ExecTwo(s, Present(r, jti, user), Read(r, now, member));
    assert Step(s1, Read(r, now, member)) == Drop(s1, r);
    assert s1.requests - {r} == s.requests;
  }

  // A sign-in adds exactly one token: active, the user's, unlinked, valid for seven days, and, in every
  // state a run can reach, of a lineage that no other token has.
  lemma SignInIsARun(s: State, r: nat, user: UserId, next: Jti, now: int)
    requires r !in s.requests && next !in s.tokens
    ensures
      var t := Exec(s, [SignIn(r, user), MintFirst(r, next, now)]);
      && t.requests == s.requests && t.tokens.Keys == s.tokens.Keys + {next}
      && Active(t.tokens[next]) && t.tokens[next].user == user && t.tokens[next].replacedBy == None
      && t.tokens[next].expiresAt == now + 7 * 24 * 3600 * 1000
      && (forall j | j in s.tokens :: t.tokens[j] == s.tokens[j])
      && next in t.origin
      && (Inv(s) ==> forall j | j in s.tokens :: j in t.origin && t.origin[j].lineage != t.origin[next].lineage)
  {
    var s1 := Put(s, r, SigningIn(user));
    ExecTwo(s, SignIn(r, user), MintFirst(r, next, now));
    assert Drop(s1, r) == s by {
      assert s1.requests - {r} == s.requests;
    }
    assert Step(s1, MintFirst(r, next, now)) == Minting(s, next, user, now, s.mints, None);
    forall j | Inv(s) && j in s.tokens ensures j in s.origin && s.origin[j].lineage != s.mints {
      assert TokenOk(s, j);
    }
  }

  // A request may end at any point, and leaves the tokens as they are.
  lemma RequestsMayDie(s: State, r: nat)
    ensures Step(s, Die(r)) == s.(requests := s.requests - {r})
  {
    if r !in s.requests {
      assert s.requests - {r} == s.requests;
    }
  }

  // Logging out revokes the one token, unless it is revoked already, and does nothing else.
  lemma LogoutIsAStep(s: State, jti: Jti, now: int)
    ensures
      var t := Step(s, Logout(jti, now));
      && t.requests == s.requests && t.tokens == RevokeOne(s.tokens, jti, now) && t.tokens.Keys == s.tokens.Keys
      && (forall j | j in s.tokens && j != jti :: t.tokens[j] == s.tokens[j])
      && (jti in s.tokens ==>
            && t.tokens[jti].revokedAt == Some(s.tokens[jti].revokedAt.GetOr(now))
            && t.tokens[jti].(revokedAt := None) == s.tokens[jti].(revokedAt := None))
  {
  }

  // Logging out everywhere does that to each of the user's tokens.
  lemma LogoutAllIsAStep(s: State, user: UserId, now: int)
    ensures
      var t := Step(s, LogoutAll(user, now));
      && t.requests == s.requests && t.tokens == RevokeUser(s.tokens, user, now) && t.tokens.Keys == s.tokens.Keys
      && (forall j | j in s.tokens && s.tokens[j].user != user :: t.tokens[j] == s.tokens[j])
      && (forall j | j in s.tokens && s.tokens[j].user == user ::
            && t.tokens[j].revokedAt == Some(s.tokens[j].revokedAt.GetOr(now))
            && t.tokens[j].(revokedAt := None) == s.tokens[j].(revokedAt := None))
  {
  }

  lemma LostClaimRun(s: State, r: nat, jti: Jti, now: int, earlier: int)
    requires jti in s.tokens && Active(s.tokens[jti])
    requires r in s.requests && s.requests[r] == Checked(jti, s.tokens[jti].user)
    ensures
      var t := Step(Step(Step(s, Logout(jti, earlier)), Claim(r, now)), AnswerReuse(r, now));
      && t.requests == s.requests - {r}
      && t.tokens == RevokeUser(RevokeOne(s.tokens, jti, earlier), s.tokens[jti].user, now)
  {
    var user := s.tokens[jti].user;
    var s1 := Step(s, Logout(jti, earlier));
    var s2 := Put(s1, r, ReuseSeen(user));
    assert Step(s1, Claim(r, now)) == s2;
    ReuseRun(s2, r, user, now);
    assert s.requests[r := ReuseSeen(user)] - {r} == s.requests - {r};
  }

  lemma RotationRun(s: State, r: nat, jti: Jti, next: Jti, now: int)
    requires jti in s.tokens && jti in s.origin && Active(s.tokens[jti]) && next !in s.tokens
    requires r in s.requests && s.requests[r] == Checked(jti, s.tokens[jti].user)
    ensures
      var t := Step(Step(Step(s, Claim(r, now)), MintSuccessor(r, next, now)), WriteLink(r));
      t.requests == s.requests - {r} && t.tokens == Rotated(s.tokens, jti, next, now)
  {
    var user := s.tokens[jti].user;
    var s1 := Step(s, Claim(r, now));
    assert s1.tokens == s.tokens[jti := Token(user, Some(now), s.tokens[jti].replacedBy, s.tokens[jti].expiresAt)];
    assert s1.requests == s.requests[r := Claimed(jti, user)];
    var s2 := Step(s1, MintSuccessor(r, next, now));
    assert s2.tokens == s1.tokens[next := Token(user, None, None, now + REFRESH_TTL_MS)];
    assert s2.requests == s.requests[r := Minted(jti, user, next)];
  }

  // ---------- the service ----------

  datatype AuthError = InvalidRefreshToken | AccessRevoked

  // What a verified refresh token says; absent when the signature does not verify.
  datatype Claims = Claims(isRefresh: bool, jti: Option<Jti>, user: UserId)

  /** The token table, and the methods of the auth service over it. */
  class AuthService {
    var tokens: Tokens

    method IssueTokens(user: UserId, jti: Jti, now: int)
      requires jti !in tokens
      modifies this
      ensures tokens.Keys == old(tokens).Keys + {jti}
      ensures Active(tokens[jti]) && tokens[jti].user == user && tokens[jti].replacedBy == None
      ensures tokens[jti].expiresAt == now + 7 * 24 * 3600 * 1000
      ensures forall j | j in old(tokens) :: tokens[j] == old(tokens)[j]
    {
      tokens := tokens[jti := Token(user, None, None, now + REFRESH_TTL_MS)];
    }

    method RevokeAllForUser(user: UserId, now: int)
      modifies this
      ensures tokens.Keys == old(tokens).Keys
      ensures forall j | j in tokens && tokens[j].user == user :: !Active(tokens[j])
      ensures forall j | j in tokens && Active(old(tokens)[j]) && tokens[j].user == user ::
                tokens[j].revokedAt == Some(now)
      ensures forall j | j in tokens && !(Active(old(tokens)[j]) && tokens[j].user == user) ::
                tokens[j] == old(tokens)[j]
      ensures forall j | j in tokens :: tokens[j].(revokedAt := None) == old(tokens)[j].(revokedAt := None)
    {
      tokens := map j | j in tokens :: if tokens[j].user == user && Active(tokens[j])
          then tokens[j].(revokedAt := Some(now)) else tokens[j];
    }

    // The conditional statement that both the claim and the logout issue.
    method RevokeToken(jti: Jti, now: int) returns (count: nat)
      modifies this
      ensures tokens == RevokeOne(old(tokens), jti, now)
      ensures count == if jti in old(tokens) && Active(old(tokens)[jti]) then 1 else 0
    {
      if jti in tokens && Active(tokens[jti]) {
        tokens := tokens[jti := tokens[jti].(revokedAt := Some(now))];
        return 1;
      }
      return 0;
    }

    method Logout(presented: Option<Claims>, now: int)
      modifies this
      ensures tokens == if presented.Some? && presented.value.jti.Some?
                then RevokeOne(old(tokens), presented.value.jti.value, now)
                        else old(tokens)
    {
      if presented.Some? && presented.value.jti.Some? {
        var _ := RevokeToken(presented.value.jti.value, now);
      }
    }

    // next is the identifier the new token will get; rival is the time at which another request
    // revokes the presented token between this one's read and its claim, if one does.
    method Refresh(presented: Option<Claims>, member: bool, next: Jti, now: int, rival: Option<int>)
      returns (r: Result<Jti, AuthError>)
      requires next !in tokens
      modifies this
      ensures
        var ts := old(tokens);
        var known := presented.Some? && presented.value.isRefresh && presented.value.jti.Some?
                     && presented.value.jti.value in ts && ts[presented.value.jti.value].user == presented.value.user;
        if !known then r == Err(InvalidRefreshToken) && tokens == ts
        else
          var jti, user := presented.value.jti.value, presented.value.user;
          if !Active(ts[jti]) then r == Err(InvalidRefreshToken) && tokens == RevokeUser(ts, user, now)
          else if ts[jti].expiresAt < now then r == Err(InvalidRefreshToken) && tokens == ts
          else if !member then r == Err(AccessRevoked) && tokens == ts
          else if rival.Some? then
            && r == Err(InvalidRefreshToken)
            && tokens == RevokeUser(RevokeOne(ts, jti, rival.value), user, now)
            && (forall j | j in tokens && tokens[j].user == user :: !Active(tokens[j]))
          else
            && r == Ok(next)
            && tokens == Rotated(ts, jti, next, now)
    {
      if presented.None? || !presented.value.isRefresh || presented.value.jti.None? {
        return Err(InvalidRefreshToken);
      }
      var jti, user := presented.value.jti.value, presented.value.user;
      if jti !in tokens || tokens[jti].user != user {
        return Err(InvalidRefreshToken);
      }
      if !Active(tokens[jti]) {
        RevokeAllForUser(user, now);
        return Err(InvalidRefreshToken);
      }
      if tokens[jti].expiresAt < now {
        return Err(InvalidRefreshToken);
      }
      if !member {
        return Err(AccessRevoked);
      }
      if rival.Some? {
        var _ := RevokeToken(jti, rival.value);
      }
      var count := RevokeToken(jti, now);
      if count == 0 {
        RevokeAllForUser(user, now);
        return Err(InvalidRefreshToken);
      }
      IssueTokens(user, next, now);
      tokens := tokens[jti := tokens[jti].(replacedBy := Some(next))];
      return Ok(next);
    }
  }
}
