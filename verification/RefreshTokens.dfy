/** Rotated refresh tokens: apps/api/src/auth/tokens/refresh-token.service.ts, driven by
    login, refresh and logout. Each operation is one atomic step; a raw token stands for
    its own hash, and the ids of new families and the raw tokens drawn are fresh. */
module RefreshTokens {
  import opened Common

  datatype Token = Token(
    userId: nat, raw: string, familyId: nat,
    replacedById: Option<nat>, revokedAt: Option<int>, expiresAt: int)

  datatype Answer = Issued(id: nat) | Invalid | Revoked

  datatype Op =
    | Login(userId: nat, familyId: nat, raw: string)
    | Rotate(presented: string, raw: string)
    | Logout(presented: string)

  // ----- the operations on the token table

  predicate KnownRaw(ts: seq<Token>, raw: string) {
    exists i :: 0 <= i < |ts| && ts[i].raw == raw
  }

  function FindRaw(ts: seq<Token>, raw: string): (r: Option<nat>)
    ensures r.Some? ==> r.value < |ts| && ts[r.value].raw == raw
    ensures r.None? <==> !KnownRaw(ts, raw)
  {
    if ts == [] then None
    else if ts[|ts| - 1].raw == raw then Some(|ts| - 1)
    else FindRaw(ts[..|ts| - 1], raw)
  }

  function NewToken(userId: nat, familyId: nat, raw: string, now: int, ttlMs: int): Token {
    Token(userId, raw, familyId, None, None, now + ttlMs)
  }

  function RevokeFamily(ts: seq<Token>, familyId: nat, now: int): (r: seq<Token>)
    ensures |r| == |ts|
    ensures forall i :: 0 <= i < |ts| ==>
      r[i] == if ts[i].familyId == familyId && ts[i].revokedAt.None? then ts[i].(revokedAt := Some(now)) else ts[i]
  {
    seq(|ts|, i requires 0 <= i < |ts| =>
      if ts[i].familyId == familyId && ts[i].revokedAt.None? then ts[i].(revokedAt := Some(now)) else ts[i])
  }

  function RevokeRaw(ts: seq<Token>, raw: string, now: int): (r: seq<Token>)
    ensures |r| == |ts|
    ensures forall i :: 0 <= i < |ts| ==>
      r[i] == if ts[i].raw == raw && ts[i].revokedAt.None? then ts[i].(revokedAt := Some(now)) else ts[i]
  {
    seq(|ts|, i requires 0 <= i < |ts| =>
      if ts[i].raw == raw && ts[i].revokedAt.None? then ts[i].(revokedAt := Some(now)) else ts[i])
  }

  /** Presenting this token is taken for theft. */
  predicate Stale(t: Token, now: int) {
    t.revokedAt.Some? || t.expiresAt < now
  }

  function RotateToken(ts: seq<Token>, presented: string, raw: string, now: int, ttlMs: int): (seq<Token>, Answer) {
    var found := FindRaw(ts, presented);
    if found.None? then (ts, Invalid)
    else
      var i := found.value;
      if Stale(ts[i], now) then (RevokeFamily(ts, ts[i].familyId, now), Revoked)
      else
        var next := |ts|;
        ((ts + [NewToken(ts[i].userId, ts[i].familyId, raw, now, ttlMs)])
           [i := ts[i].(revokedAt := Some(now), replacedById := Some(next))],
         Issued(next))
  }

  function Apply(ts: seq<Token>, op: Op, now: int, ttlMs: int): (seq<Token>, Answer) {
    match op
    case Login(userId, familyId, raw) => (ts + [NewToken(userId, familyId, raw, now, ttlMs)], Issued(|ts|))
    case Rotate(presented, raw) => RotateToken(ts, presented, raw, now, ttlMs)
    case Logout(presented) => (RevokeRaw(ts, presented, now), Invalid)
  }

  /** Generated values are new. */
  ghost predicate Fresh(ts: seq<Token>, op: Op) {
    match op
    case Login(_, familyId, raw) => !KnownRaw(ts, raw) && forall i :: 0 <= i < |ts| ==> ts[i].familyId != familyId
    case Rotate(_, raw) => !KnownRaw(ts, raw)
    case Logout(_) => true
  }

  // ----- the invariant

  predicate Sibling(ts: seq<Token>, i: int, j: int) {
    0 <= i < |ts| && 0 <= j < |ts| && ts[i].familyId == ts[j].familyId
  }

  /** `j` is the next token of the family of `i`. */
  ghost predicate NextInFamily(ts: seq<Token>, i: int, j: int) {
    i < j && Sibling(ts, i, j) && forall k :: i < k < j ==> !Sibling(ts, i, k)
  }

  ghost predicate LinkFits(ts: seq<Token>, i: nat)
    requires i < |ts|
  {
    match ts[i].replacedById
    case None => forall j :: i < j ==> !Sibling(ts, i, j)
    case Some(j) => NextInFamily(ts, i, j) && ts[i].revokedAt.Some?
  }

  ghost predicate Good(ts: seq<Token>) {
    && (forall i, j :: 0 <= i < j < |ts| ==> ts[i].raw != ts[j].raw)
    && (forall i :: 0 <= i < |ts| ==> LinkFits(ts, i))
  }

  /** At most the last issued token of a family is unrevoked. */
  lemma OnlyTheLastLives(ts: seq<Token>, i: nat, j: nat)
    requires Good(ts) && i < j && Sibling(ts, i, j)
    ensures ts[i].revokedAt.Some?
  {
    assert LinkFits(ts, i);
  }

  lemma LoginKeepsGood(ts: seq<Token>, op: Op, now: int, ttlMs: int)
    requires Good(ts) && op.Login? && Fresh(ts, op)
    ensures Good(Apply(ts, op, now, ttlMs).0)
  {
    var r := Apply(ts, op, now, ttlMs).0;
    forall i | 0 <= i < |r| ensures LinkFits(r, i) {
      if i < |ts| {
        assert LinkFits(ts, i);
        if ts[i].replacedById.Some? {
          forall k | i < k < ts[i].replacedById.value ensures !Sibling(r, i, k) { assert !Sibling(ts, i, k); }
        } else {
          forall k | i < k ensures !Sibling(r, i, k) { assert !Sibling(ts, i, k); }
        }
      }
    }
  }

  /** Revoking more tokens never hurts. */
  lemma RevokingKeepsGood(ts: seq<Token>, r: seq<Token>)
    requires Good(ts) && |r| == |ts|
    requires forall i :: 0 <= i < |ts| ==> r[i] == ts[i] || (exists at :: r[i] == ts[i].(revokedAt := Some(at)))
    ensures Good(r)
  {
    forall i, j ensures Sibling(ts, i, j) <==> Sibling(r, i, j) {
    }
    forall i | 0 <= i < |r| ensures LinkFits(r, i) {
      assert LinkFits(ts, i);
      if ts[i].replacedById.None? {
        forall j | i < j ensures !Sibling(r, i, j) { assert !Sibling(ts, i, j); }
      } else {
        forall k | i < k < ts[i].replacedById.value ensures !Sibling(r, i, k) { assert !Sibling(ts, i, k); }
      }
    }
  }

  lemma RotateKeepsGood(ts: seq<Token>, op: Op, now: int, ttlMs: int)
    requires Good(ts) && op.Rotate? && Fresh(ts, op)
    ensures Good(Apply(ts, op, now, ttlMs).0)
  {
    var r := Apply(ts, op, now, ttlMs).0;
    var found := FindRaw(ts, op.presented);
    if found.Some? {
      var i := found.value;
      if Stale(ts[i], now) {
        RevokingKeepsGood(ts, r);
      } else {
        assert LinkFits(ts, i);
        forall j | 0 <= j < |r| ensures LinkFits(r, j) {
          RotatedLink(ts, op, now, ttlMs, i, j);
        }
        assert forall j :: 0 <= j < |ts| ==> r[j].raw == ts[j].raw;
        assert r[|ts|].raw == op.raw;
      }
    }
  }

  lemma RotatedLink(ts: seq<Token>, op: Op, now: int, ttlMs: int, i: nat, j: nat)
    requires Good(ts) && op.Rotate? && Fresh(ts, op) && FindRaw(ts, op.presented) == Some(i) && !Stale(ts[i], now)
    requires j <= |ts|
    ensures LinkFits(Apply(ts, op, now, ttlMs).0, j)
  {
    var r := Apply(ts, op, now, ttlMs).0;
    assert LinkFits(ts, i);
    forall a, b | 0 <= a < |ts| && 0 <= b < |ts| ensures Sibling(r, a, b) <==> Sibling(ts, a, b) {
    }
    if j == i {
      assert NextInFamily(r, i, |ts|) by {
        forall k | i < k < |ts| ensures !Sibling(r, i, k) { assert !Sibling(ts, i, k); }
      }
    } else if j < |ts| {
      assert LinkFits(ts, j);
      if ts[j].replacedById.Some? {
        forall k | j < k < ts[j].replacedById.value ensures !Sibling(r, j, k) { assert !Sibling(ts, j, k); }
      } else {
        forall k | j < k ensures !Sibling(r, j, k) {
          if k < |ts| {
            assert !Sibling(ts, j, k);
          } else if k == |ts| {
            assert !Sibling(ts, j, i) by {
              if i > j { assert !Sibling(ts, j, i); } else { assert !Sibling(ts, i, j); }
            }
          }
        }
      }
    }
  }

  lemma OpKeepsGood(ts: seq<Token>, op: Op, now: int, ttlMs: int)
    requires Good(ts) && Fresh(ts, op)
    ensures Good(Apply(ts, op, now, ttlMs).0)
  {
    match op
    case Login(_, _, _) => LoginKeepsGood(ts, op, now, ttlMs);
    case Rotate(_, _) => RotateKeepsGood(ts, op, now, ttlMs);
    case Logout(_) => RevokingKeepsGood(ts, Apply(ts, op, now, ttlMs).0);
  }

  // ----- what an operation does

  ghost predicate Dead(ts: seq<Token>, familyId: nat) {
    forall i :: 0 <= i < |ts| && ts[i].familyId == familyId ==> ts[i].revokedAt.Some?
  }

  ghost predicate Exists(ts: seq<Token>, familyId: nat) {
    exists i :: 0 <= i < |ts| && ts[i].familyId == familyId
  }

  /** A presented token is exchanged exactly when it is known, unrevoked and unexpired;
      a stale one costs the whole family, an unknown one nothing. */
  lemma RotateMeans(ts: seq<Token>, presented: string, raw: string, now: int, ttlMs: int)
    requires Good(ts) && !KnownRaw(ts, raw)
    ensures var (r, answer) := RotateToken(ts, presented, raw, now, ttlMs);
      match FindRaw(ts, presented)
      case None => r == ts && answer == Invalid
      case Some(i) =>
        && (answer.Issued? <==> ts[i].revokedAt.None? && ts[i].expiresAt >= now)
        && (answer.Issued? ==>
              && answer.id == |ts| && |r| == |ts| + 1
              && r[i] == ts[i].(revokedAt := Some(now), replacedById := Some(|ts|))
              && r[|ts|] == Token(ts[i].userId, raw, ts[i].familyId, None, None, now + ttlMs)
              && (forall j :: 0 <= j < |ts| && j != i ==> r[j] == ts[j])
              && (forall j :: 0 <= j < |r| && j != |ts| && r[j].familyId == ts[i].familyId ==> r[j].revokedAt.Some?))
        && (!answer.Issued? ==>
              && answer == Revoked && Dead(r, ts[i].familyId) && |r| == |ts|
              && (forall j :: 0 <= j < |ts| && (ts[j].familyId != ts[i].familyId || ts[j].revokedAt.Some?) ==> r[j] == ts[j])
              && (forall j :: 0 <= j < |ts| && ts[j].familyId == ts[i].familyId && ts[j].revokedAt.None? ==>
                    r[j] == ts[j].(revokedAt := Some(now))))
  {
    var found := FindRaw(ts, presented);
    if found.Some? && !Stale(ts[found.value], now) {
      var i := found.value;
      forall j | 0 <= j < |ts| && j != i && ts[j].familyId == ts[i].familyId ensures ts[j].revokedAt.Some? {
        if j < i {
          OnlyTheLastLives(ts, j, i);
        } else {
          OnlyTheLastLives(ts, i, j);
        }
      }
    }
  }

  /** A login adds one live token, of the user and the family it was given. */
  lemma LoginMeans(ts: seq<Token>, userId: nat, familyId: nat, raw: string, now: int, ttlMs: int)
    ensures var (r, answer) := Apply(ts, Login(userId, familyId, raw), now, ttlMs);
      && answer == Issued(|ts|) && |r| == |ts| + 1 && r[..|ts|] == ts
      && r[|ts|] == Token(userId, raw, familyId, None, None, now + ttlMs)
  {
  }

  /** A logout revokes the presented token if it is live, and touches nothing else. */
  lemma LogoutMeans(ts: seq<Token>, presented: string, now: int, ttlMs: int)
    requires Good(ts)
    ensures var r := Apply(ts, Logout(presented), now, ttlMs).0;
      && |r| == |ts|
      && (forall i :: 0 <= i < |ts| && ts[i].raw == presented ==> r[i].revokedAt.Some?)
      && (forall i :: 0 <= i < |ts| && ts[i].raw == presented && ts[i].revokedAt.None? ==> r[i] == ts[i].(revokedAt := Some(now)))
      && (forall i :: 0 <= i < |ts| && (ts[i].raw != presented || ts[i].revokedAt.Some?) ==> r[i] == ts[i])
  {
  }

  // ----- whose tokens they are

  /** All tokens of one family belong to one user. */
  ghost predicate OneUserEach(ts: seq<Token>) {
    forall i, j :: Sibling(ts, i, j) ==> ts[i].userId == ts[j].userId
  }

  lemma OpKeepsUsers(ts: seq<Token>, op: Op, now: int, ttlMs: int)
    requires OneUserEach(ts) && Fresh(ts, op)
    ensures OneUserEach(Apply(ts, op, now, ttlMs).0)
  {
    var r := Apply(ts, op, now, ttlMs).0;
    forall i, j | Sibling(r, i, j) ensures r[i].userId == r[j].userId {
      UserOf(ts, op, now, ttlMs, i);
      UserOf(ts, op, now, ttlMs, j);
      var a, b := Older(ts, op, now, ttlMs, i), Older(ts, op, now, ttlMs, j);
      if a.Some? && b.Some? {
        assert Sibling(ts, a.value, b.value);
      }
    }
  }

  /** The token, in the table before the operation, from which token `i` has its user
      and family; None for the one token of a new family. */
  ghost function Older(ts: seq<Token>, op: Op, now: int, ttlMs: int, i: nat): Option<nat>
    requires i < |Apply(ts, op, now, ttlMs).0|
  {
    if i < |ts| then Some(i) else if op.Rotate? then FindRaw(ts, op.presented) else None
  }

  lemma UserOf(ts: seq<Token>, op: Op, now: int, ttlMs: int, i: nat)
    requires i < |Apply(ts, op, now, ttlMs).0| && Fresh(ts, op)
    ensures var r, a := Apply(ts, op, now, ttlMs).0, Older(ts, op, now, ttlMs, i);
      if a.Some? then a.value < |ts| && r[i].userId == ts[a.value].userId && r[i].familyId == ts[a.value].familyId
      else i == |ts| && forall j :: 0 <= j < |ts| ==> ts[j].familyId != r[i].familyId
  {
  }

  /** A token just issued can be exchanged until its lifetime is over and no longer. */
  lemma FreshTokenLivesItsTerm(ts: seq<Token>, op: Op, now: int, ttlMs: int, raw: string, later: int)
    requires Good(ts) && Fresh(ts, op) && Apply(ts, op, now, ttlMs).1.Issued?
    requires var r := Apply(ts, op, now, ttlMs).0; !KnownRaw(r, raw)
    ensures var (r, issued) := Apply(ts, op, now, ttlMs);
      && issued.id < |r|
      && (RotateToken(r, r[issued.id].raw, raw, later, ttlMs).1.Issued? <==> later <= now + ttlMs)
  {
    OpKeepsGood(ts, op, now, ttlMs);
    var (r, issued) := Apply(ts, op, now, ttlMs);
    if op.Rotate? {
      RotateMeans(ts, op.presented, op.raw, now, ttlMs);
    }
    assert FindRaw(r, r[issued.id].raw) == Some(issued.id);
  }

  /** A family without an unrevoked token never gains one again. */
  lemma DeadStaysDead(ts: seq<Token>, op: Op, now: int, ttlMs: int, familyId: nat)
    requires Good(ts) && Fresh(ts, op) && Exists(ts, familyId) && Dead(ts, familyId)
    ensures Exists(Apply(ts, op, now, ttlMs).0, familyId) && Dead(Apply(ts, op, now, ttlMs).0, familyId)
  {
    var r := Apply(ts, op, now, ttlMs).0;
    var i :| 0 <= i < |ts| && ts[i].familyId == familyId;
    assert r[i].familyId == familyId;
  }

  // ----- the links form a path

  /** The ids reached from `i` by following `replacedById`. */
  ghost function Walk(ts: seq<Token>, i: nat): seq<nat>
    requires Good(ts) && i < |ts|
    decreases |ts| - i
  {
    assert LinkFits(ts, i);
    if ts[i].replacedById.None? then [i] else [i] + Walk(ts, ts[i].replacedById.value)
  }

  /** Following the links from a token visits every later token of its family once, in
      the order of issue, and ends at the last one issued. */
  lemma {:induction false} LinksFormAPath(ts: seq<Token>, i: nat)
    requires Good(ts) && i < |ts|
    ensures var w := Walk(ts, i);
      && w != [] && w[0] == i
      && (forall a, b :: 0 <= a < b < |w| ==> w[a] < w[b])
      && (forall k: nat :: k in w <==> i <= k && Sibling(ts, i, k))
      && (forall k :: w[|w| - 1] < k ==> !Sibling(ts, i, k))
    decreases |ts| - i
  {
    assert LinkFits(ts, i);
    if ts[i].replacedById.Some? {
      var j := ts[i].replacedById.value;
      LinksFormAPath(ts, j);
      var w, rest := Walk(ts, i), Walk(ts, j);
      forall k: nat ensures k in w <==> i <= k && Sibling(ts, i, k) {
        assert k in w <==> k == i || k in rest;
        assert Sibling(ts, i, k) <==> Sibling(ts, j, k);
      }
      forall k | w[|w| - 1] < k ensures !Sibling(ts, i, k) {
        assert !Sibling(ts, j, k);
      }
    }
  }

  // ----- whole histories

  datatype Call = Call(op: Op, at: int)

  ghost function History(calls: seq<Call>, ttlMs: int): seq<Token> {
    if calls == [] then [] else
      var last := calls[|calls| - 1];
      Apply(History(calls[..|calls| - 1], ttlMs), last.op, last.at, ttlMs).0
  }

  ghost predicate FreshHistory(calls: seq<Call>, ttlMs: int) {
    calls == [] || (FreshHistory(calls[..|calls| - 1], ttlMs)
                    && Fresh(History(calls[..|calls| - 1], ttlMs), calls[|calls| - 1].op))
  }

  /** After any sequence of calls, at any times, the table is good. */
  lemma {:induction false} HistoriesAreGood(calls: seq<Call>, ttlMs: int)
    requires FreshHistory(calls, ttlMs)
    ensures Good(History(calls, ttlMs))
  {
    if calls != [] {
      HistoriesAreGood(calls[..|calls| - 1], ttlMs);
      var last := calls[|calls| - 1];
      OpKeepsGood(History(calls[..|calls| - 1], ttlMs), last.op, last.at, ttlMs);
    }
  }

  /** After any sequence of calls every family has one user: no exchange ever hands a
      session to somebody else. */
  lemma {:induction false} FamiliesHaveOneUser(calls: seq<Call>, ttlMs: int)
    requires FreshHistory(calls, ttlMs)
    ensures OneUserEach(History(calls, ttlMs))
  {
    if calls != [] {
      FamiliesHaveOneUser(calls[..|calls| - 1], ttlMs);
      var last := calls[|calls| - 1];
      OpKeepsUsers(History(calls[..|calls| - 1], ttlMs), last.op, last.at, ttlMs);
    }
  }

  lemma {:induction false} DeadForever(calls: seq<Call>, n: nat, ttlMs: int, familyId: nat)
    requires FreshHistory(calls, ttlMs) && n <= |calls|
    requires Exists(History(calls[..n], ttlMs), familyId) && Dead(History(calls[..n], ttlMs), familyId)
    ensures Exists(History(calls, ttlMs), familyId) && Dead(History(calls, ttlMs), familyId)
    decreases |calls|
  {
    if n == |calls| {
      assert calls[..n] == calls;
    } else {
      var init, last := calls[..|calls| - 1], calls[|calls| - 1];
      assert init[..n] == calls[..n];
      DeadForever(init, n, ttlMs, familyId);
      HistoriesAreGood(init, ttlMs);
      DeadStaysDead(History(init, ttlMs), last.op, last.at, ttlMs, familyId);
    }
  }

  // ----- the service

  class RefreshTokenService {
    var tokens: seq<Token>
    const ttlMs: int

    constructor (ttlSeconds: nat)
      ensures tokens == [] && ttlMs == ttlSeconds * 1000
    {
      tokens, ttlMs := [], ttlSeconds * 1000;
    }

    method Issue(userId: nat, familyId: nat, raw: string, now: int) returns (id: nat)
      modifies this
      ensures tokens == old(tokens) + [Token(userId, raw, familyId, None, None, now + ttlMs)]
      ensures id == |old(tokens)|
    {
      tokens := tokens + [NewToken(userId, familyId, raw, now, ttlMs)];
      id := |tokens| - 1;
    }

    method RotateIt(presented: string, raw: string, now: int) returns (answer: Answer)
      modifies this
      ensures (tokens, answer) == RotateToken(old(tokens), presented, raw, now, ttlMs)
      ensures Good(old(tokens)) && !KnownRaw(old(tokens), raw) ==> Good(tokens)
    {
      if Good(tokens) && !KnownRaw(tokens, raw) {
        OpKeepsGood(tokens, Rotate(presented, raw), now, ttlMs);
      }
      var found := FindRaw(tokens, presented);
      if found.None? {
        return Invalid;
      }
      var existing := tokens[found.value];
      if existing.revokedAt.Some? || existing.expiresAt < now {
        tokens := RevokeFamily(tokens, existing.familyId, now);
        return Revoked;
      }
      var next := Issue(existing.userId, existing.familyId, raw, now);
      tokens := tokens[found.value := tokens[found.value].(revokedAt := Some(now), replacedById := Some(next))];
      return Issued(next);
    }

    method RevokeByRawToken(presented: string, now: int)
      modifies this
      ensures tokens == RevokeRaw(old(tokens), presented, now)
    {
      tokens := RevokeRaw(tokens, presented, now);
    }
  }
}
