/** Partner sharing: invite codes (`active`, then `used`, `expired` or
    `invalidated`) and partnerships between two users.

    Both collections are kept in the order their documents were created, so
    "newest first by creation time" is the reverse of that order. A query over
    the partnerships is taken to visit them in that order too; the database
    itself visits an unordered query in document-id order, and the two agree
    whenever each user has at most one active partnership (`PartnerOfUnique`).
    Time is milliseconds since the epoch and `now` is a parameter; the random
    choices of code characters come from an oracle parameter. */
module Partner {
  import opened Wrappers
  import opened Text
  import Constants
  import opened Store

  type Time = int

  /** An invite code is valid for 24 hours. */
  const CodeLifetime: int := 24 * 60 * 60 * 1000
  const CodeLength: nat := 6
  /** How many random codes are tried before giving up. */
  const MaxAttempts: nat := 10
  /** The characters codes are made of, `A` to `Z` then `0` to `9`. */
  const CodeAlphabet: string := "ABCDEFGHIJKLMNOPQRSTUVWXYZ0123456789"

  datatype CodeStatus = CodeActive | CodeUsed | CodeExpired | CodeInvalidated

  datatype InviteCode = InviteCode(
    code: string,
    generatedBy: UserId,
    status: CodeStatus,
    createdAt: Time,
    expiresAt: Time,
    usedBy: Option<UserId>)

  datatype PartnershipStatus = PartnershipActive | PartnershipInactive

  /** A partnership document: `user1` invited `user2`; `id` is its document id. */
  datatype Partnership = Partnership(
    id: string,
    user1: UserId,
    user2: UserId,
    status: PartnershipStatus,
    inviteCode: string)

  datatype PartnerDb = PartnerDb(codes: seq<InviteCode>, partnerships: seq<Partnership>)

  // ---------------------------------------------------------------------------
  // generatePartnershipId

  /** JavaScript's default string order (by character, a prefix first). */
  predicate LexLessEq(a: string, b: string)
    decreases |a|
  {
    |a| == 0 || (|b| > 0 && (a[0] < b[0] || (a[0] == b[0] && LexLessEq(a[1..], b[1..]))))
  }

  lemma {:induction false} LexTotal(a: string, b: string)
    ensures LexLessEq(a, b) || LexLessEq(b, a)
    decreases |a|
  {
    if |a| > 0 && |b| > 0 && a[0] == b[0] {
      LexTotal(a[1..], b[1..]);
    }
  }

  lemma {:induction false} LexAntisymmetric(a: string, b: string)
    requires LexLessEq(a, b) && LexLessEq(b, a)
    ensures a == b
    decreases |a|
  {
    if |a| > 0 {
      LexAntisymmetric(a[1..], b[1..]);
      assert a == [a[0]] + a[1..];
      assert b == [b[0]] + b[1..];
    }
  }

  /** The two user ids in sorted order, joined by `_`. */
  function PartnershipId(u1: UserId, u2: UserId): string {
    if LexLessEq(u1, u2) then u1 + "_" + u2 else u2 + "_" + u1
  }

  /** The id does not depend on which user invited whom, and it is the smaller id,
      `_`, and the larger. */
  lemma PartnershipIdSymmetric(u1: UserId, u2: UserId)
    ensures PartnershipId(u1, u2) == PartnershipId(u2, u1)
    ensures exists lo, hi :: {lo, hi} == {u1, u2} && LexLessEq(lo, hi) && PartnershipId(u1, u2) == lo + "_" + hi
  {
    LexTotal(u1, u2);
    if LexLessEq(u1, u2) && LexLessEq(u2, u1) {
      LexAntisymmetric(u1, u2);
    }
    if LexLessEq(u1, u2) {
      assert {u1, u2} == {u1, u2} && PartnershipId(u1, u2) == u1 + "_" + u2;
    } else {
      assert {u2, u1} == {u1, u2} && PartnershipId(u1, u2) == u2 + "_" + u1;
    }
  }

  // ---------------------------------------------------------------------------
  // getPartnerId and getPartnershipData

  /** The partnership is active and the user is one of its two members. */
  predicate Involves(p: Partnership, u: UserId) {
    p.status == PartnershipActive && (p.user1 == u || p.user2 == u)
  }

  /** Index of the first active partnership the user belongs to. */
  function FirstInvolving(ps: seq<Partnership>, u: UserId, from: nat): (r: Option<nat>)
    requires from <= |ps|
    ensures r.Some? ==> from <= r.value < |ps| && Involves(ps[r.value], u)
    ensures forall j :: from <= j < |ps| && (r.None? || j < r.value) ==> !Involves(ps[j], u)
    decreases |ps| - from
  {
    if from == |ps| then None
    else if Involves(ps[from], u) then Some(from)
    else FirstInvolving(ps, u, from + 1)
  }

  /** `getPartnerId`: the other member of the first active partnership, in
      creation order, that contains the user, or none when there is no such
      partnership. */
  function PartnerOf(ps: seq<Partnership>, u: UserId): (r: Option<UserId>)
    ensures r.None? <==> forall j :: 0 <= j < |ps| ==> !Involves(ps[j], u)
    ensures r.Some? ==>
              exists i :: 0 <= i < |ps| && Involves(ps[i], u)
                          && (forall j :: 0 <= j < i ==> !Involves(ps[j], u))
                          && (if ps[i].user1 == u then r.value == ps[i].user2 else r.value == ps[i].user1)
  {
    match FirstInvolving(ps, u, 0)
    case None => None
    case Some(i) => Some(if ps[i].user1 == u then ps[i].user2 else ps[i].user1)
  }

  /** At most one active partnership per user, and nobody partnered with
      themselves. */
  predicate OnePartnerEach(ps: seq<Partnership>) {
    (forall i :: 0 <= i < |ps| && ps[i].status == PartnershipActive ==> ps[i].user1 != ps[i].user2)
    && (forall i, j :: 0 <= i < j < |ps| && ps[i].status == PartnershipActive ==>
          !Involves(ps[j], ps[i].user1) && !Involves(ps[j], ps[i].user2))
  }

  /** With one partner each, partner lookup is symmetric. */
  lemma PartnerOfSymmetric(ps: seq<Partnership>, u: UserId)
    requires OnePartnerEach(ps)
    requires PartnerOf(ps, u).Some?
    ensures PartnerOf(ps, PartnerOf(ps, u).value) == Some(u)
  {
    var i := FirstInvolving(ps, u, 0).value;
    var v := PartnerOf(ps, u).value;
    assert Involves(ps[i], v);
  }

  /** A partnership document is written under its id: the first one with that id
      is replaced, or it is added. */
  function SetPartnership(ps: seq<Partnership>, p: Partnership): (out: seq<Partnership>)
    ensures p in out
    ensures forall q :: q in out ==> q == p || q in ps
    ensures forall q :: q in ps && q.id != p.id ==> q in out
  {
    if |ps| == 0 then [p]
    else if ps[0].id == p.id then [p] + ps[1..]
    else [ps[0]] + SetPartnership(ps[1..], p)
  }

  // ---------------------------------------------------------------------------
  // Invite code lookup

  /** Index of the document with that code. */
  function FindCode(codes: seq<InviteCode>, code: string): (r: Option<nat>)
    ensures r.Some? ==> r.value < |codes| && codes[r.value].code == code
    ensures r.None? <==> forall i :: 0 <= i < |codes| ==> codes[i].code != code
  {
    if |codes| == 0 then None
    else if codes[|codes| - 1].code == code then Some(|codes| - 1)
    else FindCode(codes[..|codes| - 1], code)
  }

  function UpdateCode(codes: seq<InviteCode>, code: string, status: CodeStatus, usedBy: Option<UserId>): (out: seq<InviteCode>)
    ensures |out| == |codes|
    ensures forall i :: 0 <= i < |codes| ==>
              out[i] == (if codes[i].code == code then codes[i].(status := status, usedBy := usedBy) else codes[i])
  {
    seq(|codes|, i requires 0 <= i < |codes| =>
      if codes[i].code == code then codes[i].(status := status, usedBy := usedBy) else codes[i])
  }

  /** `markInviteCodeAsExpired`: the document of that code gets status
      `expired`; without such a document the update fails and nothing changes. */
  function MarkExpired(codes: seq<InviteCode>, code: string): (out: seq<InviteCode>)
    ensures |out| == |codes|
    ensures forall i :: 0 <= i < |codes| ==>
              out[i] == if codes[i].code == code then codes[i].(status := CodeExpired) else codes[i]
  {
    seq(|codes|, i requires 0 <= i < |codes| =>
      if codes[i].code == code then codes[i].(status := CodeExpired) else codes[i])
  }

  /** `markInviteCodeAsUsed`: the document of that code gets status `used` and
      the user who used it; without such a document nothing changes. */
  function MarkUsed(codes: seq<InviteCode>, code: string, user: UserId): (out: seq<InviteCode>)
    ensures |out| == |codes|
    ensures forall i :: 0 <= i < |codes| ==>
              out[i] == if codes[i].code == code then codes[i].(status := CodeUsed, usedBy := Some(user)) else codes[i]
  {
    if FindCode(codes, code).None? then codes else UpdateCode(codes, code, CodeUsed, Some(user))
  }

  // ---------------------------------------------------------------------------
  // useInviteCode: `/招待コード\s*([A-Z0-9]{6})/i`

  /** End of the white-space run that starts at i (`\s*`, greedy). */
  function SkipSpaces(s: string, i: nat): (j: nat)
    requires i <= |s|
    ensures i <= j <= |s|
    ensures forall k :: i <= k < j ==> IsWhitespace(s[k])
    ensures j < |s| ==> !IsWhitespace(s[j])
    decreases |s| - i
  {
    if i < |s| && IsWhitespace(s[i]) then SkipSpaces(s, i + 1) else i
  }

  /** Start of the captured code when the pattern matches at i. A greedy `\s*`
      can only be followed by a character outside `\s`, so backtracking into it
      never helps. */
  function CodeStart(s: string, i: nat): nat
    requires i + |Constants.InviteKeyword| <= |s|
  {
    SkipSpaces(s, i + |Constants.InviteKeyword|)
  }

  predicate InviteMatchAt(s: string, i: nat) {
    i + |Constants.InviteKeyword| <= |s|
    && s[i..i + |Constants.InviteKeyword|] == Constants.InviteKeyword
    && (var j := CodeStart(s, i);
        j + CodeLength <= |s| && forall k :: j <= k < j + CodeLength ==> IsAlnumIgnoreCase(s[k]))
  }

  /** Position of the leftmost match at or after `from`. */
  function FirstInviteMatch(s: string, from: nat): (r: Option<nat>)
    requires from <= |s|
    ensures r.Some? ==> from <= r.value < |s| && InviteMatchAt(s, r.value)
    ensures forall j :: from <= j < |s| && (r.None? || j < r.value) ==> !InviteMatchAt(s, j)
    decreases |s| - from
  {
    if from == |s| then None
    else if InviteMatchAt(s, from) then Some(from)
    else FirstInviteMatch(s, from + 1)
  }

  /** A character of the code alphabet. */
  predicate IsCodeChar(c: char) {
    IsAsciiUpper(c) || IsDigit(c)
  }

  /** A well-formed code: six characters of the code alphabet. */
  predicate CodeShaped(c: string) {
    |c| == CodeLength && forall k :: 0 <= k < |c| ==> IsCodeChar(c[k])
  }

  /** The code a message carries: the six characters after the first keyword
      that is followed by optional white space and six letters or digits,
      upper-cased. */
  function ExtractInviteCode(message: string): (r: Option<string>)
    ensures r.None? <==> forall i :: 0 <= i < |message| ==> !InviteMatchAt(message, i)
    ensures r.Some? ==> CodeShaped(r.value)
    ensures r.Some? ==>
              exists i :: 0 <= i < |message| && InviteMatchAt(message, i)
                          && (forall j :: 0 <= j < i ==> !InviteMatchAt(message, j))
                          && r.value == ToUpper(message[CodeStart(message, i)..CodeStart(message, i) + CodeLength])
  {
    match FirstInviteMatch(message, 0)
    case None => None
    case Some(i) =>
      var j := CodeStart(message, i);
      Some(ToUpper(message[j..j + CodeLength]))
  }

  /** A code handed out, typed back after the keyword with any white space
      between and in either case, is read back as itself. */
  lemma ExtractTypedCode(code: string, spaces: string, lower: bool)
    requires CodeShaped(code)
    requires forall k :: 0 <= k < |spaces| ==> IsWhitespace(spaces[k])
    ensures ExtractInviteCode(Constants.InviteKeyword + spaces + (if lower then ToLower(code) else code)) == Some(code)
  {
    var typed := if lower then ToLower(code) else code;
    var m := Constants.InviteKeyword + spaces + typed;
    var j := |Constants.InviteKeyword| + |spaces|;
    TypedCodeMatches(code, spaces, lower);
    assert FirstInviteMatch(m, 0) == Some(0);
    assert m[j..j + CodeLength] == typed;
    UpperOfTyped(code, lower);
  }

  /** The pattern matches a typed code at the start of the message, and the
      captured code begins right after the white space. */
  lemma TypedCodeMatches(code: string, spaces: string, lower: bool)
    requires CodeShaped(code)
    requires forall k :: 0 <= k < |spaces| ==> IsWhitespace(spaces[k])
    ensures var m := Constants.InviteKeyword + spaces + (if lower then ToLower(code) else code);
            InviteMatchAt(m, 0) && CodeStart(m, 0) == |Constants.InviteKeyword| + |spaces|
  {
    var typed := if lower then ToLower(code) else code;
    var m := Constants.InviteKeyword + spaces + typed;
    var kw, j := |Constants.InviteKeyword|, |Constants.InviteKeyword| + |spaces|;
    UpperOfTyped(code, lower);
    assert forall k :: kw <= k < j ==> m[k] == spaces[k - kw];
    assert m[j] == typed[0];
    SkipSpacesOver(m, kw, |spaces|);
    assert m[..kw] == Constants.InviteKeyword;
    assert forall k :: j <= k < j + CodeLength ==> m[k] == typed[k - j];
  }

  /** Upper-casing a code typed in either case gives the code back. */
  lemma UpperOfTyped(code: string, lower: bool)
    requires CodeShaped(code)
    ensures var typed := if lower then ToLower(code) else code;
            (forall k :: 0 <= k < |typed| ==> IsAlnumIgnoreCase(typed[k])) && ToUpper(typed) == code
  {
  }

  lemma SkipSpacesOver(s: string, i: nat, n: nat)
    requires i + n < |s|
    requires forall k :: i <= k < i + n ==> IsWhitespace(s[k])
    requires !IsWhitespace(s[i + n])
    ensures SkipSpaces(s, i) == i + n
    decreases n
  {
    if n > 0 {
      SkipSpacesOver(s, i + 1, n - 1);
    }
  }

  // ---------------------------------------------------------------------------
  // processInviteAcceptance and useInviteCode

  datatype AcceptOutcome =
    | OwnCode
    | AlreadyPartnered(partner: UserId)
    | UnknownCode
    | CodeNotActive
    | CodeHasExpired
    | Accepted(inviter: UserId)

  /** The checks in order: the acceptor's own code, an acceptor who already has a
      partner, an unknown code, a code no longer active, an expired code (now past
      its expiry). Only the expiry check writes: it marks the code expired. On
      success the partnership inviter-acceptor is written under its id and the
      code is marked used by the acceptor. */
  function ProcessInviteAcceptance(db: PartnerDb, acceptor: UserId, code: string, now: Time)
    : (r: (PartnerDb, AcceptOutcome))
    ensures var found := FindCode(db.codes, code);
            (r.1 == OwnCode <==> found.Some? && db.codes[found.value].generatedBy == acceptor)
            && (r.1 == UnknownCode <==> found.None? && PartnerOf(db.partnerships, acceptor).None?)
            && (r.1.AlreadyPartnered? ==> PartnerOf(db.partnerships, acceptor) == Some(r.1.partner))
            && (r.1.Accepted? ==>
                  found.Some? && db.codes[found.value].status == CodeActive
                  && now <= db.codes[found.value].expiresAt
                  && r.1.inviter == db.codes[found.value].generatedBy != acceptor
                  && PartnerOf(db.partnerships, acceptor).None?)
    ensures !r.1.Accepted? ==> r.0.partnerships == db.partnerships
    ensures !r.1.Accepted? && !r.1.CodeHasExpired? ==> r.0 == db
    ensures var found := FindCode(db.codes, code);
            var open := found.Some? && db.codes[found.value].generatedBy != acceptor
                        && PartnerOf(db.partnerships, acceptor).None?;
            (r.1.AlreadyPartnered? <==>
               !(found.Some? && db.codes[found.value].generatedBy == acceptor)
               && PartnerOf(db.partnerships, acceptor).Some?)
            && (r.1 == CodeNotActive <==> open && db.codes[found.value].status != CodeActive)
            && (r.1 == CodeHasExpired <==>
                  open && db.codes[found.value].status == CodeActive && now > db.codes[found.value].expiresAt)
            && (r.1.Accepted? <==>
                  open && db.codes[found.value].status == CodeActive && now <= db.codes[found.value].expiresAt)
    ensures r.1 == CodeHasExpired ==>
              |r.0.codes| == |db.codes|
              && forall i :: 0 <= i < |db.codes| ==>
                   r.0.codes[i] == if db.codes[i].code == code then db.codes[i].(status := CodeExpired) else db.codes[i]
    ensures r.1.Accepted? ==>
              r.0.partnerships == SetPartnership(db.partnerships,
                Partnership(PartnershipId(r.1.inviter, acceptor), r.1.inviter, acceptor, PartnershipActive, code))
              && |r.0.codes| == |db.codes|
              && forall i :: 0 <= i < |db.codes| ==>
                   r.0.codes[i] == if db.codes[i].code == code
                                   then db.codes[i].(status := CodeUsed, usedBy := Some(acceptor))
                                   else db.codes[i]
  {
    var found := FindCode(db.codes, code);
    if found.Some? && db.codes[found.value].generatedBy == acceptor then (db, OwnCode)
    else
      match PartnerOf(db.partnerships, acceptor)
      case Some(partner) => (db, AlreadyPartnered(partner))
      case None =>
        if found.None? then (db, UnknownCode)
        else
          var data := db.codes[found.value];
          if data.status != CodeActive then (db, CodeNotActive)
          else if now > data.expiresAt then (db.(codes := MarkExpired(db.codes, code)), CodeHasExpired)
          else
            var inviter := data.generatedBy;
            var p := Partnership(PartnershipId(inviter, acceptor), inviter, acceptor, PartnershipActive, code);
            (PartnerDb(MarkUsed(db.codes, code, acceptor), SetPartnership(db.partnerships, p)), Accepted(inviter))
  }

  /** After a successful acceptance the two users are each other's partner,
      provided the inviter had no partner before and everyone had at most one;
      the one-partner property then still holds. */
  lemma AcceptancePairsUsers(db: PartnerDb, acceptor: UserId, code: string, now: Time)
    requires OnePartnerEach(db.partnerships)
    requires ProcessInviteAcceptance(db, acceptor, code, now).1.Accepted?
    requires PartnerOf(db.partnerships, ProcessInviteAcceptance(db, acceptor, code, now).1.inviter).None?
    ensures var (db', outcome) := ProcessInviteAcceptance(db, acceptor, code, now);
            OnePartnerEach(db'.partnerships)
            && PartnerOf(db'.partnerships, acceptor) == Some(outcome.inviter)
            && PartnerOf(db'.partnerships, outcome.inviter) == Some(acceptor)
  {
    var (db', outcome) := ProcessInviteAcceptance(db, acceptor, code, now);
    var inviter := outcome.inviter;
    var p := Partnership(PartnershipId(inviter, acceptor), inviter, acceptor, PartnershipActive, code);
    var ps, ps' := db.partnerships, db'.partnerships;
    assert ps' == SetPartnership(ps, p);
    forall q | q in ps' && q != p
      ensures !Involves(q, inviter) && !Involves(q, acceptor)
    {
      var j :| 0 <= j < |ps| && ps[j] == q;
    }
    OnePartnerAfterSet(ps, p);
    PartnerOfUnique(ps', p, acceptor);
    PartnerOfUnique(ps', p, inviter);
  }

  /** Acceptance checks the acceptor's partner but not the inviter's: an active
      code left over from before the inviter got a partner gives the inviter a
      second one. */
  lemma InviterCanGainSecondPartner()
    ensures var db := PartnerDb([InviteCode("AAAAAA", "a", CodeActive, 0, CodeLifetime, None)],
                                [Partnership("a_b", "a", "b", PartnershipActive, "BBBBBB")]);
            var (db', outcome) := ProcessInviteAcceptance(db, "c", "AAAAAA", 0);
            OnePartnerEach(db.partnerships) && outcome == Accepted("a") && !OnePartnerEach(db'.partnerships)
  {
    var db := PartnerDb([InviteCode("AAAAAA", "a", CodeActive, 0, CodeLifetime, None)],
                        [Partnership("a_b", "a", "b", PartnershipActive, "BBBBBB")]);
    assert PartnerOf(db.partnerships, "c").None?;
    assert FindCode(db.codes, "AAAAAA") == Some(0);
    var ps' := ProcessInviteAcceptance(db, "c", "AAAAAA", 0).0.partnerships;
    assert PartnershipId("a", "c") == "a_c";
    assert ps' == db.partnerships + [Partnership("a_c", "a", "c", PartnershipActive, "AAAAAA")];
    assert Involves(ps'[1], ps'[0].user1);
  }

  /** Writing a partnership between two users who have no partner keeps one
      partner each. */
  lemma {:induction false} OnePartnerAfterSet(ps: seq<Partnership>, p: Partnership)
    requires OnePartnerEach(ps)
    requires p.status == PartnershipActive && p.user1 != p.user2
    requires forall q :: q in ps ==> !Involves(q, p.user1) && !Involves(q, p.user2)
    ensures OnePartnerEach(SetPartnership(ps, p))
  {
    if |ps| == 0 {
      OnePartnerCons(p, []);
    } else {
      OnePartnerTail(ps);
      if ps[0].id == p.id {
        OnePartnerCons(p, ps[1..]);
      } else {
        OnePartnerAfterSet(ps[1..], p);
        var rest := SetPartnership(ps[1..], p);
        forall q | q in rest && ps[0].status == PartnershipActive
          ensures !Involves(q, ps[0].user1) && !Involves(q, ps[0].user2)
        {
          if q == p {
            assert ps[0] in ps;
          } else {
            var k :| 0 <= k < |ps[1..]| && ps[1..][k] == q;
            assert ps[k + 1] == q;
          }
        }
        OnePartnerCons(ps[0], rest);
      }
    }
  }

  /** A list without double partners stays so without its first entry. */
  lemma OnePartnerTail(ps: seq<Partnership>)
    requires |ps| > 0 && OnePartnerEach(ps)
    ensures OnePartnerEach(ps[1..])
  {
    forall i, j | 0 <= i < j < |ps[1..]| && ps[1..][i].status == PartnershipActive
      ensures !Involves(ps[1..][j], ps[1..][i].user1) && !Involves(ps[1..][j], ps[1..][i].user2)
    {
      assert ps[1..][i] == ps[i + 1] && ps[1..][j] == ps[j + 1];
    }
  }

  /** A partnership put in front keeps the list free of double partners when
      its users are in no later active partnership. */
  lemma OnePartnerCons(x: Partnership, rest: seq<Partnership>)
    requires OnePartnerEach(rest)
    requires x.status == PartnershipActive ==> x.user1 != x.user2
    requires forall q :: q in rest && x.status == PartnershipActive ==> !Involves(q, x.user1) && !Involves(q, x.user2)
    ensures OnePartnerEach([x] + rest)
  {
    var out := [x] + rest;
    forall i, j | 0 <= i < j < |out| && out[i].status == PartnershipActive
      ensures !Involves(out[j], out[i].user1) && !Involves(out[j], out[i].user2)
    {
      assert out[j] == rest[j - 1];
      if i > 0 {
        assert out[i] == rest[i - 1];
      }
    }
  }

  /** When p is the only active partnership that involves u, u's partner is p's
      other member. */
  lemma PartnerOfUnique(ps: seq<Partnership>, p: Partnership, u: UserId)
    requires p in ps && Involves(p, u)
    requires forall q :: q in ps && q != p ==> !Involves(q, u)
    ensures PartnerOf(ps, u) == Some(if p.user1 == u then p.user2 else p.user1)
  {
    var i := FirstInvolving(ps, u, 0).value;
    assert ps[i] == p;
  }

  datatype UseOutcome = BadFormat | Processed(outcome: AcceptOutcome)

  /** `useInviteCode`: a message without a well-formed code is refused before
      any lookup; otherwise the extracted code goes through the acceptance
      checks. */
  function UseInviteCode(db: PartnerDb, acceptor: UserId, message: string, now: Time): (r: (PartnerDb, UseOutcome))
    ensures r.1 == BadFormat <==> ExtractInviteCode(message).None?
    ensures r.1 == BadFormat ==> r.0 == db
    ensures r.1.Processed? ==>
              (r.0, r.1.outcome) == ProcessInviteAcceptance(db, acceptor, ExtractInviteCode(message).value, now)
  {
    match ExtractInviteCode(message)
    case None => (db, BadFormat)
    case Some(code) =>
      var (db', outcome) := ProcessInviteAcceptance(db, acceptor, code, now);
      (db', Processed(outcome))
  }

  // ---------------------------------------------------------------------------
  // invalidateUserInviteCodes and removePartner

  /** Every active code of the user becomes invalidated; nothing else changes. */
  function InvalidateUserInviteCodes(codes: seq<InviteCode>, u: UserId): (out: seq<InviteCode>)
    ensures |out| == |codes|
    ensures forall i :: 0 <= i < |codes| ==>
              out[i].code == codes[i].code && out[i].generatedBy == codes[i].generatedBy
              && out[i].expiresAt == codes[i].expiresAt && out[i].usedBy == codes[i].usedBy
              && (codes[i].generatedBy != u ==> out[i] == codes[i])
              && (codes[i].status != CodeActive ==> out[i] == codes[i])
              && (codes[i].generatedBy == u ==> out[i].status != CodeActive)
              && (codes[i].generatedBy == u && codes[i].status == CodeActive ==>
                    out[i] == codes[i].(status := CodeInvalidated))
  {
    seq(|codes|, i requires 0 <= i < |codes| =>
      if codes[i].generatedBy == u && codes[i].status == CodeActive
      then codes[i].(status := CodeInvalidated)
      else codes[i])
  }

  lemma InvalidateIdempotent(codes: seq<InviteCode>, u: UserId)
    ensures InvalidateUserInviteCodes(InvalidateUserInviteCodes(codes, u), u) == InvalidateUserInviteCodes(codes, u)
  {
  }

  /** Index of the first partnership with that document id, from `from` on. */
  function FirstWithId(ps: seq<Partnership>, id: string, from: nat): (r: Option<nat>)
    requires from <= |ps|
    ensures r.Some? ==> from <= r.value < |ps| && ps[r.value].id == id
    ensures forall j :: from <= j < |ps| && (r.None? || j < r.value) ==> ps[j].id != id
    decreases |ps| - from
  {
    if from == |ps| then None
    else if ps[from].id == id then Some(from)
    else FirstWithId(ps, id, from + 1)
  }

  /** Sets the status of the first partnership with that document id; fails when
      there is none, as a field update of a missing document does. */
  function DeactivatePartnership(ps: seq<Partnership>, id: string): (r: Result<seq<Partnership>>)
    ensures r.Success? <==> exists i :: 0 <= i < |ps| && ps[i].id == id
    ensures r.Success? ==> |r.value| == |ps|
    ensures r.Success? ==>
              forall j :: 0 <= j < |ps| ==>
                if ps[j].id == id && forall m :: 0 <= m < j ==> ps[m].id != id
                then r.value[j] == ps[j].(status := PartnershipInactive)
                else r.value[j] == ps[j]
  {
    match FirstWithId(ps, id, 0)
    case None => Failure("No document to update")
    case Some(k) => Success(ps[k := ps[k].(status := PartnershipInactive)])
  }

  datatype RemoveOutcome = NoPartnerToRemove | Removed(partner: UserId) | RemoveError

  /** `removePartner`: the first active partnership of the user is marked
      inactive and the active codes of both members are invalidated. */
  function RemovePartner(db: PartnerDb, u: UserId): (r: (PartnerDb, RemoveOutcome))
    ensures r.1 == NoPartnerToRemove <==> PartnerOf(db.partnerships, u).None?
    ensures r.1.Removed? ==> r.1.partner == PartnerOf(db.partnerships, u).value
    ensures r.1.Removed? ==>
              forall i :: 0 <= i < |r.0.codes| ==>
                r.0.codes[i].generatedBy in {u, r.1.partner} ==> r.0.codes[i].status != CodeActive
    ensures !r.1.Removed? ==> r.0 == db
    ensures r.1.Removed? ==>
              |r.0.codes| == |db.codes|
              && forall i :: 0 <= i < |db.codes| ==>
                   r.0.codes[i] == if db.codes[i].generatedBy in {u, r.1.partner} && db.codes[i].status == CodeActive
                                   then db.codes[i].(status := CodeInvalidated)
                                   else db.codes[i]
    ensures r.1 != NoPartnerToRemove ==>
              var ps := db.partnerships;
              var p := ps[FirstInvolving(ps, u, 0).value];
              var id := PartnershipId(p.user1, p.user2);
              (r.1 == RemoveError <==> forall j :: 0 <= j < |ps| ==> ps[j].id != id)
              && (r.1.Removed? ==>
                    |r.0.partnerships| == |ps|
                    && forall j :: 0 <= j < |ps| ==>
                         if ps[j].id == id && forall m :: 0 <= m < j ==> ps[m].id != id
                         then r.0.partnerships[j] == ps[j].(status := PartnershipInactive)
                         else r.0.partnerships[j] == ps[j])
  {
    match PartnerOf(db.partnerships, u)
    case None => (db, NoPartnerToRemove)
    case Some(partner) =>
      var i := FirstInvolving(db.partnerships, u, 0).value;
      var data := db.partnerships[i];
      match DeactivatePartnership(db.partnerships, PartnershipId(data.user1, data.user2))
      case Failure(_) => (db, RemoveError)
      case Success(ps) =>
        var codes := InvalidateUserInviteCodes(InvalidateUserInviteCodes(db.codes, u), partner);
        (PartnerDb(codes, ps), Removed(partner))
  }

  /** Each stored partnership sits under the id of its two members, and no two
      share a document id. */
  predicate KeyedById(ps: seq<Partnership>) {
    (forall i :: 0 <= i < |ps| ==> ps[i].id == PartnershipId(ps[i].user1, ps[i].user2))
    && (forall i, j :: 0 <= i < j < |ps| ==> ps[i].id != ps[j].id)
  }

  /** When every partnership is stored under its own id, removal finds the
      document it updates, and the user is left without a partner. */
  lemma RemoveLeavesNoPartner(db: PartnerDb, u: UserId)
    requires KeyedById(db.partnerships)
    requires OnePartnerEach(db.partnerships)
    requires PartnerOf(db.partnerships, u).Some?
    ensures RemovePartner(db, u).1.Removed?
    ensures PartnerOf(RemovePartner(db, u).0.partnerships, u).None?
  {
    var ps := db.partnerships;
    var i := FirstInvolving(ps, u, 0).value;
    var id := PartnershipId(ps[i].user1, ps[i].user2);
    DeactivateAt(ps, id, i);
    var ps' := RemovePartner(db, u).0.partnerships;
    forall j | 0 <= j < |ps'|
      ensures !Involves(ps'[j], u)
    {
      if j > i {
        assert !Involves(ps[j], ps[i].user1) && !Involves(ps[j], ps[i].user2);
      }
    }
  }

  /** Deactivating by id updates the first entry with that id. */
  lemma DeactivateAt(ps: seq<Partnership>, id: string, i: nat)
    requires i < |ps| && ps[i].id == id
    requires forall j :: 0 <= j < i ==> ps[j].id != id
    ensures DeactivatePartnership(ps, id) == Success(ps[i := ps[i].(status := PartnershipInactive)])
  {
    assert FirstWithId(ps, id, 0) == Some(i);
  }

  // ---------------------------------------------------------------------------
  // generateInviteCode

  /** `Math.floor(Math.random() * 36)`. */
  type Draw = i: int | 0 <= i < 36

  /** The six draws of one generated code. */
  type CodeDraws = s: seq<Draw> | |s| == CodeLength witness [0, 0, 0, 0, 0, 0]

  /** Character i of the code alphabet. */
  function AlphabetChar(i: Draw): (c: char)
    ensures IsCodeChar(c)
  {
    if i < 26 then ('A' as int + i) as char else ('0' as int + i - 26) as char
  }

  /** Position of a character in the code alphabet. */
  function AlphabetIndex(c: char): (i: Draw)
    requires IsCodeChar(c)
    ensures AlphabetChar(i) == c
  {
    if IsAsciiUpper(c) then c as int - 'A' as int else 26 + (c as int - '0' as int)
  }

  /** The arithmetic definition spells out the alphabet. */
  lemma AlphabetSpelledOut()
    ensures seq(36, i requires 0 <= i < 36 => AlphabetChar(i)) == CodeAlphabet
  {
  }

  /** `generateRandomCode`: one alphabet character per draw. */
  function RandomCode(draws: CodeDraws): (c: string)
    ensures CodeShaped(c)
    ensures forall k :: 0 <= k < CodeLength ==> c[k] == AlphabetChar(draws[k])
  {
    seq(CodeLength, k requires 0 <= k < CodeLength => AlphabetChar(draws[k]))
  }

  /** Every well-formed code is the outcome of some draws. */
  lemma EveryCodeReachable(c: string)
    requires CodeShaped(c)
    ensures exists d: CodeDraws :: RandomCode(d) == c
  {
    var d: seq<Draw> := seq(CodeLength, k requires 0 <= k < CodeLength => AlphabetIndex(c[k]));
    assert RandomCode(d) == c;
  }

  predicate CodeTaken(codes: seq<InviteCode>, c: string) {
    exists i :: 0 <= i < |codes| && codes[i].code == c
  }

  /** The first attempt from k on whose drawn code is not yet in use. */
  function FirstFreeAttempt(random: nat -> CodeDraws, codes: seq<InviteCode>, k: nat): (r: Option<nat>)
    requires k <= MaxAttempts
    ensures r.Some? ==> k <= r.value < MaxAttempts && !CodeTaken(codes, RandomCode(random(r.value)))
    ensures forall b :: k <= b < MaxAttempts && (r.None? || b < r.value) ==> CodeTaken(codes, RandomCode(random(b)))
    decreases MaxAttempts - k
  {
    if k == MaxAttempts then None
    else if FindCode(codes, RandomCode(random(k))).None? then Some(k)
    else FirstFreeAttempt(random, codes, k + 1)
  }

  /** `createUniqueInviteCode` from attempt k on: the first drawn code not yet in
      use, or an error after `MaxAttempts` attempts. */
  function CreateUniqueInviteCode(random: nat -> CodeDraws, codes: seq<InviteCode>, k: nat): (r: Result<string>)
    requires k <= MaxAttempts
    ensures r.Success? <==> exists a :: k <= a < MaxAttempts && !CodeTaken(codes, RandomCode(random(a)))
    ensures r.Success? ==>
              CodeShaped(r.value) && !CodeTaken(codes, r.value)
              && exists a :: k <= a < MaxAttempts && r.value == RandomCode(random(a))
                             && forall b :: k <= b < a ==> CodeTaken(codes, RandomCode(random(b)))
  {
    match FirstFreeAttempt(random, codes, k)
    case Some(a) => Success(RandomCode(random(a)))
    case None => Failure("Failed to generate unique invite code")
  }

  /** Index of the newest active code of the user. */
  function LatestActiveCode(codes: seq<InviteCode>, u: UserId): (r: Option<nat>)
    ensures r.Some? ==> r.value < |codes| && codes[r.value].generatedBy == u && codes[r.value].status == CodeActive
    ensures r.Some? ==> forall j :: r.value < j < |codes| ==> !(codes[j].generatedBy == u && codes[j].status == CodeActive)
    ensures r.None? <==> forall j :: 0 <= j < |codes| ==> !(codes[j].generatedBy == u && codes[j].status == CodeActive)
  {
    if |codes| == 0 then None
    else if codes[|codes| - 1].generatedBy == u && codes[|codes| - 1].status == CodeActive then Some(|codes| - 1)
    else LatestActiveCode(codes[..|codes| - 1], u)
  }

  datatype GenerateOutcome = HasPartner(partner: UserId) | ExistingCode(code: InviteCode) | NewCode(code: InviteCode) | GenerateError

  /** `generateInviteCode`: a user with a partner is refused; the newest active
      code is handed out again while unexpired (an expired one is marked so);
      otherwise a fresh code valid for 24 hours is stored. */
  function GenerateInviteCode(db: PartnerDb, u: UserId, now: Time, random: nat -> CodeDraws): (r: (PartnerDb, GenerateOutcome))
    ensures r.1.HasPartner? <==> PartnerOf(db.partnerships, u).Some?
    ensures r.0.partnerships == db.partnerships
    ensures r.1.ExistingCode? ==>
              r.0 == db && r.1.code.generatedBy == u && r.1.code.status == CodeActive && now <= r.1.code.expiresAt
    ensures r.1.NewCode? ==>
              var c := r.1.code;
              CodeShaped(c.code) && !CodeTaken(db.codes, c.code)
              && c.generatedBy == u && c.status == CodeActive && c.usedBy.None?
              && c.expiresAt == now + CodeLifetime
              && |r.0.codes| == |db.codes| + 1 && r.0.codes[|db.codes|] == c
    ensures r.1.HasPartner? ==> r.0 == db
  {
    match PartnerOf(db.partnerships, u)
    case Some(p) => (db, HasPartner(p))
    case None =>
      var latest := LatestActiveCode(db.codes, u);
      if latest.Some? && now <= db.codes[latest.value].expiresAt then (db, ExistingCode(db.codes[latest.value]))
      else
        var codes := if latest.Some? then MarkExpired(db.codes, db.codes[latest.value].code) else db.codes;
        match CreateUniqueInviteCode(random, codes, 0)
        case Failure(_) => (db.(codes := codes), GenerateError)
        case Success(code) =>
          var c := InviteCode(code, u, CodeActive, now, now + CodeLifetime, None);
          MarkExpiredKeepsCodes(db.codes, if latest.Some? then db.codes[latest.value].code else "", codes, latest.Some?);
          (db.(codes := codes + [c]), NewCode(c))
  }

  /** Which outcome `generateInviteCode` has: the newest active code is handed
      out again exactly when it is unexpired; the generation fails exactly when
      all ten drawn codes are taken. When the newest active code has expired,
      every earlier document is kept except that this code is marked expired. */
  lemma GenerateInviteCodeCases(db: PartnerDb, u: UserId, now: Time, random: nat -> CodeDraws)
    ensures var (db', outcome) := GenerateInviteCode(db, u, now, random);
            var latest := LatestActiveCode(db.codes, u);
            var reuse := latest.Some? && now <= db.codes[latest.value].expiresAt;
            (outcome.ExistingCode? <==> PartnerOf(db.partnerships, u).None? && reuse)
            && (outcome.ExistingCode? ==> outcome.code == db.codes[latest.value])
            && (outcome == GenerateError <==>
                  PartnerOf(db.partnerships, u).None? && !reuse
                  && forall a :: 0 <= a < MaxAttempts ==> CodeTaken(db.codes, RandomCode(random(a))))
    ensures var (db', outcome) := GenerateInviteCode(db, u, now, random);
            var latest := LatestActiveCode(db.codes, u);
            outcome == GenerateError || outcome.NewCode? ==>
              |db'.codes| >= |db.codes|
              && forall i :: 0 <= i < |db.codes| ==>
                   db'.codes[i] == if latest.Some? && db.codes[i].code == db.codes[latest.value].code
                                   then db.codes[i].(status := CodeExpired)
                                   else db.codes[i]
  {
    var latest := LatestActiveCode(db.codes, u);
    if PartnerOf(db.partnerships, u).None? && !(latest.Some? && now <= db.codes[latest.value].expiresAt) {
      var codes := if latest.Some? then MarkExpired(db.codes, db.codes[latest.value].code) else db.codes;
      forall c
        ensures CodeTaken(codes, c) <==> CodeTaken(db.codes, c)
      {
        if CodeTaken(db.codes, c) {
          var i :| 0 <= i < |db.codes| && db.codes[i].code == c;
          assert codes[i].code == c;
        }
      }
    }
  }

  /** Marking a code expired changes no code string. */
  lemma MarkExpiredKeepsCodes(codes: seq<InviteCode>, code: string, out: seq<InviteCode>, marked: bool)
    requires out == if marked then MarkExpired(codes, code) else codes
    ensures forall c :: CodeTaken(out, c) ==> CodeTaken(codes, c)
  {
  }
}
