/**
 The DACL judge: does an access-control list let a non-privileged principal write a guarded path?
 The judge is a one-pass rule over the ACEs; its reference is the order-sensitive access check of
 [MS-DTYP] section 2.5.3.2, run for every token an unprivileged requester can hold.
 */
module Dacl {

  /** A 32-bit rights mask as the set of its bits: `&`, `|` and `& !` are intersection, union, difference. */
  type Bit = b: int | 0 <= b < 32
  type Mask = set<Bit>
  type Sid = string

  const WRITE_DATA: Bit := 1         // 0x0000_0002
  const ADD_SUBDIRECTORY: Bit := 2   // 0x0000_0004
  const DELETE_CHILD: Bit := 6       // 0x0000_0040
  const DELETE: Bit := 16            // 0x0001_0000
  const WRITE_DAC: Bit := 18         // 0x0004_0000
  const WRITE_OWNER: Bit := 19       // 0x0008_0000
  const GENERIC_ALL: Bit := 28       // 0x1000_0000
  const GENERIC_WRITE: Bit := 30     // 0x4000_0000
  const WRITE_EQUIVALENT: Mask :=
    {WRITE_DATA, ADD_SUBDIRECTORY, DELETE_CHILD, DELETE, WRITE_DAC, WRITE_OWNER, GENERIC_ALL, GENERIC_WRITE}

  const EVERYONE: Sid := "S-1-1-0"
  const ANONYMOUS_LOGON: Sid := "S-1-5-7"
  const UNREADABLE_TRUSTEE := "<object ACE: trustee unreadable>"
  const NULL_DACL := "<null DACL: every principal has full control>"

  const PRIVILEGED_SIDS: seq<Sid> := [
    "S-1-5-18",
    "S-1-5-32-544",
    "S-1-3-0",
    "S-1-3-4",
    "S-1-5-80-956008885-3418522649-1831038044-1853292631-2271478464"
  ]
  const ACCOUNT_PREFIX := "S-1-5-21-"
  const ADMINISTRATIVE_RIDS: seq<string> := ["500", "512", "518", "519"]

  datatype AceKind = Allow | Deny | Other
  datatype Trustee = Named(sid: Sid) | Unreadable
  datatype Ace = Ace(kind: AceKind, trustee: Trustee, mask: Mask, inheritOnly: bool, objectInherit: bool)
  datatype Acl = Absent | Present(entries: seq<Ace>)
  datatype Verdict = PrivilegedWriteOnly | UnprivilegedWrite(sid: string)

  // ---------------------------------------------------------------- the trustee allowlist

  /** The index of the last '-' in `s`, or -1. */
  function LastDash(s: string): (i: int)
    ensures -1 <= i < |s|
    ensures i >= 0 ==> s[i] == '-'
    ensures forall k :: i < k < |s| ==> s[k] != '-'
  {
    if s == [] then -1 else if s[|s| - 1] == '-' then |s| - 1 else LastDash(s[..|s| - 1])
  }

  /** Strip the domain prefix, split off the last dash-separated field, and look the RID up. */
  predicate IsAdministratorAccount(sid: Sid) {
    ACCOUNT_PREFIX <= sid &&
    var rest := sid[|ACCOUNT_PREFIX|..];
    var dash := LastDash(rest);
    dash > 0 && rest[dash + 1..] in ADMINISTRATIVE_RIDS
  }

  predicate IsPrivilegedSid(sid: Sid) {
    sid in PRIVILEGED_SIDS || IsAdministratorAccount(sid)
  }

  predicate IsPrivilegedTrustee(t: Trustee) {
    t.Named? && IsPrivilegedSid(t.sid)
  }

  ghost predicate AccountSid(sid: Sid, domain: string, rid: string) {
    domain != [] && rid in ADMINISTRATIVE_RIDS && sid == ACCOUNT_PREFIX + (domain + ("-" + rid))
  }

  lemma {:induction false} LastDashOfJoin(domain: string, rid: string)
    requires '-' !in rid
    ensures LastDash(domain + ("-" + rid)) == |domain|
  {
    var s := domain + ("-" + rid);
    assert s[|domain|] == '-';
    assert forall k :: |domain| < k < |s| ==> s[k] == rid[k - |domain| - 1];
  }

  lemma {:induction false} AccountParses(domain: string, rid: string)
    requires domain != [] && rid in ADMINISTRATIVE_RIDS
    ensures IsAdministratorAccount(ACCOUNT_PREFIX + (domain + ("-" + rid)))
  {
    var rest := domain + ("-" + rid);
    var sid := ACCOUNT_PREFIX + rest;
    assert sid[|ACCOUNT_PREFIX|..] == rest;
    assert '-' !in rid;
    LastDashOfJoin(domain, rid);
    assert rest[|domain| + 1..] == rid;
  }

  lemma {:induction false} ParsedIsAccount(sid: Sid) returns (domain: string, rid: string)
    requires IsAdministratorAccount(sid)
    ensures AccountSid(sid, domain, rid)
  {
    var rest := sid[|ACCOUNT_PREFIX|..];
    var dash := LastDash(rest);
    domain, rid := rest[..dash], rest[dash + 1..];
    assert rest == domain + ("-" + rid);
    assert sid == ACCOUNT_PREFIX + rest;
  }

  /** The parse accepts exactly the SIDs `S-1-5-21-<domain>-<rid>` with a domain and an administrative RID. */
  lemma {:induction false} AdministratorAccountForm(sid: Sid)
    ensures IsAdministratorAccount(sid) <==> exists domain, rid :: AccountSid(sid, domain, rid)
  {
    if IsAdministratorAccount(sid) {
      var domain, rid := ParsedIsAccount(sid);
    }
    if domain: string, rid: string :| AccountSid(sid, domain, rid) {
      AccountParses(domain, rid);
    }
  }

  lemma {:induction false} WellKnownGroupsAreUnprivileged()
    ensures !IsPrivilegedSid(EVERYONE) && !IsPrivilegedSid(ANONYMOUS_LOGON) && EVERYONE != ANONYMOUS_LOGON
  {
    assert |EVERYONE| == 7 && |ANONYMOUS_LOGON| == 7 && |ACCOUNT_PREFIX| == 9;
    assert EVERYONE[4] == '1' && ANONYMOUS_LOGON[4] == '5';
    assert |PRIVILEGED_SIDS[0]| == 8 && |PRIVILEGED_SIDS[1]| == 12 && |PRIVILEGED_SIDS[4]| > 7;
    assert PRIVILEGED_SIDS[2][4] == '3' && PRIVILEGED_SIDS[3][4] == '3';
  }

  // ---------------------------------------------------------------- the judge

  predicate EveryoneDenyReaches(granted: Sid) {
    granted != ANONYMOUS_LOGON
  }

  predicate DenyCounts(ace: Ace, granted: Sid, applies: Ace -> bool) {
    ace.kind == Deny && applies(ace) && ace.trustee.Named? &&
    (ace.trustee.sid == granted || (ace.trustee.sid == EVERYONE && EveryoneDenyReaches(granted)))
  }

  function DeniedMask(preceding: seq<Ace>, granted: Sid, applies: Ace -> bool): Mask {
    if preceding == [] then {} else
      var last := preceding[|preceding| - 1];
      DeniedMask(preceding[..|preceding| - 1], granted, applies)
      + (if DenyCounts(last, granted, applies) then last.mask else {})
  }

  function DeniedMaskFor(preceding: seq<Ace>, granted: Trustee, applies: Ace -> bool): Mask {
    if granted.Named? then DeniedMask(preceding, granted.sid, applies) else {}
  }

  /** Entry `i` is the finding: an applicable grant to an unprivileged trustee that keeps a write bit. */
  predicate IsFinding(entries: seq<Ace>, i: nat, applies: Ace -> bool)
    requires i < |entries|
  {
    var ace := entries[i];
    ace.kind == Allow && applies(ace) && !IsPrivilegedTrustee(ace.trustee) &&
    ace.mask * WRITE_EQUIVALENT - DeniedMaskFor(entries[..i], ace.trustee, applies) != {}
  }

  function Display(t: Trustee): string {
    if t.Named? then t.sid else UNREADABLE_TRUSTEE
  }

  function JudgeFrom(entries: seq<Ace>, i: nat, applies: Ace -> bool): Verdict
    requires i <= |entries|
    decreases |entries| - i
  {
    if i == |entries| then PrivilegedWriteOnly
    else if IsFinding(entries, i, applies) then UnprivilegedWrite(Display(entries[i].trustee))
    else JudgeFrom(entries, i + 1, applies)
  }

  function JudgeGrants(dacl: Acl, applies: Ace -> bool): Verdict {
    match dacl
    case Absent => UnprivilegedWrite(NULL_DACL)
    case Present(entries) => JudgeFrom(entries, 0, applies)
  }

  const ToTheObject: Ace -> bool := (ace: Ace) => !ace.inheritOnly
  const ToCreatedFiles: Ace -> bool := (ace: Ace) => ace.objectInherit

  function Judge(dacl: Acl): Verdict {
    JudgeGrants(dacl, ToTheObject)
  }

  function JudgeFilesCreatedIn(dacl: Acl): Verdict {
    JudgeGrants(dacl, ToCreatedFiles)
  }

  // ---------------------------------------------------------------- the reference access check

  /**
   [MS-DTYP] section 2.5.3.2 over a discretionary ACL: walk the ACEs in order with the rights still
   wanted; a deny for a group of the token that meets them refuses, an allow takes its bits off, and
   access is granted once nothing is wanted. Inherit-only ACEs do not apply to the object. An ACE whose
   trustee is unreadable matches nobody here; `Resolve` gives such an ACE a trustee.
   */
  predicate AccessCheck(entries: seq<Ace>, token: set<Sid>, wanted: Mask)
    decreases |entries|
  {
    if wanted == {} then true
    else if entries == [] then false
    else
      var ace := entries[0];
      if !Matches(ace, token) then AccessCheck(entries[1..], token, wanted)
      else if ace.kind == Deny then ace.mask !! wanted && AccessCheck(entries[1..], token, wanted)
      else AccessCheck(entries[1..], token, wanted - ace.mask)
  }

  predicate Matches(ace: Ace, token: set<Sid>) {
    !ace.inheritOnly && ace.kind != Other && ace.trustee.Named? && ace.trustee.sid in token
  }

  /** A NULL DACL grants everything, to every token. */
  predicate Grants(dacl: Acl, token: set<Sid>, wanted: Mask) {
    dacl.Absent? || AccessCheck(dacl.entries, token, wanted)
  }

  /** A token an unprivileged requester can hold: only an anonymous-logon token may omit Everyone. */
  ghost predicate UnprivilegedToken(token: set<Sid>) {
    && (forall s :: s in token ==> !IsPrivilegedSid(s))
    && ((exists s :: s in token && s != ANONYMOUS_LOGON) ==> EVERYONE in token)
  }

  /** Some unprivileged token is granted a nonempty set of write-equivalent rights. */
  ghost predicate UnprivilegedCanWrite(dacl: Acl) {
    exists token: set<Sid>, wanted: Mask ::
      UnprivilegedToken(token) && wanted != {} && wanted <= WRITE_EQUIVALENT && Grants(dacl, token, wanted)
  }

  ghost predicate AllReadable(dacl: Acl) {
    dacl.Present? ==> forall i :: 0 <= i < |dacl.entries| && dacl.entries[i].kind != Other ==>
        dacl.entries[i].trustee.Named?
  }

  // ---------------------------------------------------------------- what the deny fold computes

  lemma {:induction false} DeniedMaskDisjoint(preceding: seq<Ace>, granted: Sid, applies: Ace -> bool, r: Mask)
    ensures DeniedMask(preceding, granted, applies) !! r <==>
            forall i :: 0 <= i < |preceding| && DenyCounts(preceding[i], granted, applies) ==> preceding[i].mask !! r
  {
    if preceding != [] {
      var n := |preceding| - 1;
      DeniedMaskDisjoint(preceding[..n], granted, applies, r);
      var last := if DenyCounts(preceding[n], granted, applies) then preceding[n].mask else {};
      assert forall i :: 0 <= i < n ==> preceding[..n][i] == preceding[i];
    }
  }

  lemma {:induction false} JudgeFromFinds(entries: seq<Ace>, i: nat, applies: Ace -> bool)
    requires i <= |entries|
    ensures JudgeFrom(entries, i, applies).UnprivilegedWrite? <==>
            exists k :: i <= k < |entries| && IsFinding(entries, k, applies)
    ensures JudgeFrom(entries, i, applies).UnprivilegedWrite? ==>
              exists k :: i <= k < |entries| && IsFinding(entries, k, applies)
                          && JudgeFrom(entries, i, applies).sid == Display(entries[k].trustee)
    decreases |entries| - i
  {
    if i < |entries| {
      JudgeFromFinds(entries, i + 1, applies);
    }
  }

  // ---------------------------------------------------------------- finding ==> someone can write

  /** With every earlier matching deny out of the way of `r`, an allow covering `r` grants it. */
  lemma {:induction false} AllowAheadOfDenies(entries: seq<Ace>, i: nat, token: set<Sid>, r: Mask)
    requires i < |entries| && Matches(entries[i], token) && entries[i].kind == Allow && r <= entries[i].mask
    requires forall k :: 0 <= k < i && Matches(entries[k], token) && entries[k].kind == Deny ==> entries[k].mask !! r
    ensures AccessCheck(entries, token, r)
    decreases i
  {
    var ace := entries[0];
    if r != {} && i > 0 {
      var tail := entries[1..];
      assert tail[i - 1] == entries[i];
      if Matches(ace, token) && ace.kind == Allow {
        forall k | 0 <= k < i - 1 && Matches(tail[k], token) && tail[k].kind == Deny
          ensures tail[k].mask !! (r - ace.mask)
        {
        }
        var m := entries[i].mask;
        assert r - ace.mask <= m;
        AllowAheadOfDenies(tail, i - 1, token, r - ace.mask);
      } else {
        AllowAheadOfDenies(tail, i - 1, token, r);
      }
    }
  }

  /** The least token holding `sid`: itself, and Everyone unless it is the anonymous logon. */
  function TokenOf(sid: Sid): set<Sid> {
    if sid == ANONYMOUS_LOGON then {sid} else {sid, EVERYONE}
  }

  lemma {:induction false} FindingIsWritable(entries: seq<Ace>, i: nat)
    requires i < |entries| && IsFinding(entries, i, ToTheObject) && entries[i].trustee.Named?
    ensures UnprivilegedToken(TokenOf(entries[i].trustee.sid))
    ensures exists wanted: Mask :: wanted != {} && wanted <= WRITE_EQUIVALENT
                                   && AccessCheck(entries, TokenOf(entries[i].trustee.sid), wanted)
  {
    WellKnownGroupsAreUnprivileged();
    var ace := entries[i];
    var sid := ace.trustee.sid;
    var token := TokenOf(sid);
    var denied := DeniedMask(entries[..i], sid, ToTheObject);
    var r := ace.mask * WRITE_EQUIVALENT - denied;
    DeniedMaskDisjoint(entries[..i], sid, ToTheObject, r);
    forall k | 0 <= k < i && Matches(entries[k], token) && entries[k].kind == Deny
      ensures entries[k].mask !! r
    {
      assert entries[..i][k] == entries[k];
      assert DenyCounts(entries[..i][k], sid, ToTheObject);
    }
    AllowAheadOfDenies(entries, i, token, r);
  }

  // ---------------------------------------------------------------- someone can write ==> finding

  /** A granted nonempty request was met by some allow that no earlier matching deny touches. */
  lemma {:induction false} GrantHasAFirstAllow(entries: seq<Ace>, token: set<Sid>, r: Mask) returns (i: nat)
    requires r != {} && AccessCheck(entries, token, r)
    ensures i < |entries| && Matches(entries[i], token) && entries[i].kind == Allow && !(entries[i].mask !! r)
    ensures forall k :: 0 <= k < i && Matches(entries[k], token) && entries[k].kind == Deny ==> entries[k].mask !! r
    decreases |entries|
  {
    var ace := entries[0];
    if Matches(ace, token) && ace.kind == Allow && !(ace.mask !! r) {
      i := 0;
    } else {
      assert Matches(ace, token) && ace.kind == Allow ==> r - ace.mask == r;
      var j := GrantHasAFirstAllow(entries[1..], token, r);
      i := j + 1;
      forall k | 0 <= k < i && Matches(entries[k], token) && entries[k].kind == Deny
        ensures entries[k].mask !! r
      {
        if k > 0 { assert entries[1..][k - 1] == entries[k]; }
      }
    }
  }

  /** An allow that meets part of `r`, with the denies before it clear of `r`, keeps a write bit. */
  lemma {:induction false} KeepsAWriteBit(entries: seq<Ace>, i: nat, r: Mask, applies: Ace -> bool)
    requires i < |entries| && entries[i].kind == Allow && applies(entries[i])
    requires !IsPrivilegedTrustee(entries[i].trustee)
    requires r <= WRITE_EQUIVALENT && !(entries[i].mask !! r)
    requires DeniedMaskFor(entries[..i], entries[i].trustee, applies) !! r
    ensures IsFinding(entries, i, applies)
  {
    var bit :| bit in entries[i].mask && bit in r;
    assert bit in entries[i].mask * WRITE_EQUIVALENT - DeniedMaskFor(entries[..i], entries[i].trustee, applies);
  }

  lemma {:induction false} WritableIsFinding(entries: seq<Ace>, token: set<Sid>, r: Mask)
    requires UnprivilegedToken(token) && r != {} && r <= WRITE_EQUIVALENT && AccessCheck(entries, token, r)
    ensures exists i :: 0 <= i < |entries| && IsFinding(entries, i, ToTheObject)
  {
    var i := GrantHasAFirstAllow(entries, token, r);
    var sid := entries[i].trustee.sid;
    DeniedMaskDisjoint(entries[..i], sid, ToTheObject, r);
    forall k | 0 <= k < i && DenyCounts(entries[..i][k], sid, ToTheObject)
      ensures entries[..i][k].mask !! r
    {
      assert entries[..i][k] == entries[k];
      assert Matches(entries[k], token);
    }
    KeepsAWriteBit(entries, i, r, ToTheObject);
  }

  // ---------------------------------------------------------------- main results

  /** The judge reports a finding exactly when some unprivileged token really is granted a write. */
  lemma {:induction false} JudgeIsExact(dacl: Acl)
    requires AllReadable(dacl)
    ensures Judge(dacl).UnprivilegedWrite? <==> UnprivilegedCanWrite(dacl)
  {
    WellKnownGroupsAreUnprivileged();
    match dacl {
      case Absent =>
        assert UnprivilegedToken({EVERYONE}) && Grants(dacl, {EVERYONE}, {WRITE_DATA});
      case Present(entries) =>
        JudgeFromFinds(entries, 0, ToTheObject);
        if Judge(dacl).UnprivilegedWrite? {
          var i :| 0 <= i < |entries| && IsFinding(entries, i, ToTheObject);
          FindingIsWritable(entries, i);
          var wanted: Mask :| wanted != {} && wanted <= WRITE_EQUIVALENT
                              && AccessCheck(entries, TokenOf(entries[i].trustee.sid), wanted);
          assert Grants(dacl, TokenOf(entries[i].trustee.sid), wanted);
        }
        if UnprivilegedCanWrite(dacl) {
          var token: set<Sid>, wanted: Mask :| UnprivilegedToken(token) && wanted != {}
            && wanted <= WRITE_EQUIVALENT && Grants(dacl, token, wanted);
          WritableIsFinding(entries, token, wanted);
        }
    }
  }

  /** The SID a finding names belongs to a principal that really can write, alone with Everyone. */
  lemma {:induction false} JudgeNamesAWriter(dacl: Acl)
    requires dacl.Present? && AllReadable(dacl) && Judge(dacl).UnprivilegedWrite?
    ensures UnprivilegedToken(TokenOf(Judge(dacl).sid))
    ensures exists wanted: Mask :: wanted != {} && wanted <= WRITE_EQUIVALENT
                                   && Grants(dacl, TokenOf(Judge(dacl).sid), wanted)
  {
    JudgeFromFinds(dacl.entries, 0, ToTheObject);
    var k :| 0 <= k < |dacl.entries| && IsFinding(dacl.entries, k, ToTheObject)
             && Judge(dacl).sid == Display(dacl.entries[k].trustee);
    FindingIsWritable(dacl.entries, k);
    var wanted: Mask :| wanted != {} && wanted <= WRITE_EQUIVALENT
                        && AccessCheck(dacl.entries, TokenOf(dacl.entries[k].trustee.sid), wanted);
    assert Grants(dacl, TokenOf(Judge(dacl).sid), wanted);
  }

  // ---------------------------------------------------------------- unreadable trustees

  /** `entries` with the unreadable trustee of entry `i` read as `who[i]`. */
  function Resolve(entries: seq<Ace>, who: seq<Sid>): (r: seq<Ace>)
    requires |who| == |entries|
    ensures |r| == |entries|
  {
    seq(|entries|, i requires 0 <= i < |entries| =>
      if entries[i].trustee.Unreadable? then entries[i].(trustee := Named(who[i])) else entries[i])
  }

  /** A clean verdict stays true whichever principals the unreadable entries turn out to name. */
  lemma {:induction false} CleanIsSoundForEveryReading(entries: seq<Ace>, who: seq<Sid>)
    requires |who| == |entries| && Judge(Present(entries)) == PrivilegedWriteOnly
    ensures !UnprivilegedCanWrite(Present(Resolve(entries, who)))
  {
    var actual := Resolve(entries, who);
    if UnprivilegedCanWrite(Present(actual)) {
      var token: set<Sid>, r: Mask :| UnprivilegedToken(token) && r != {}
        && r <= WRITE_EQUIVALENT && Grants(Present(actual), token, r);
      var i := GrantHasAFirstAllow(actual, token, r);
      if entries[i].trustee.Named? {
        var sid := entries[i].trustee.sid;
        DeniedMaskDisjoint(entries[..i], sid, ToTheObject, r);
        forall k | 0 <= k < i && DenyCounts(entries[..i][k], sid, ToTheObject)
          ensures entries[..i][k].mask !! r
        {
          assert entries[..i][k] == entries[k] == actual[k];
          assert Matches(actual[k], token);
        }
      }
      KeepsAWriteBit(entries, i, r, ToTheObject);
      JudgeFromFinds(entries, 0, ToTheObject);
    }
  }

  /** The grant of entry `i` keeps a write bit past the denies that reach `sid`. */
  predicate Outlasts(entries: seq<Ace>, i: nat, sid: Sid, applies: Ace -> bool)
    requires i < |entries|
  {
    entries[i].mask * WRITE_EQUIVALENT - DeniedMask(entries[..i], sid, applies) != {}
  }

  /**
   A finding someone can use: it names its principal, or it outlasts what is denied to Everyone or to
   ANONYMOUS LOGON.
   */
  predicate Usable(entries: seq<Ace>, i: nat, applies: Ace -> bool)
    requires i < |entries|
  {
    && IsFinding(entries, i, applies)
    && (|| entries[i].trustee.Named?
        || Outlasts(entries, i, EVERYONE, applies) || Outlasts(entries, i, ANONYMOUS_LOGON, applies))
  }

  ghost predicate SomeUsable(entries: seq<Ace>, applies: Ace -> bool) {
    exists i :: 0 <= i < |entries| && Usable(entries, i, applies)
  }

  /** Some reading of the unreadable trustees lets an unprivileged token write. */
  ghost predicate SomeReadingWrites(entries: seq<Ace>) {
    exists who: seq<Sid> :: |who| == |entries| && UnprivilegedCanWrite(Present(Resolve(entries, who)))
  }

  const SYSTEM: Sid := "S-1-5-18"

  /** Reading unreadable trustees as Local System adds no deny that reaches an unprivileged principal. */
  lemma {:induction false} ResolvedDenies(entries: seq<Ace>, who: seq<Sid>, n: nat, sid: Sid)
    requires |who| == |entries| && n <= |entries| && sid != SYSTEM
    requires forall k :: 0 <= k < n ==> who[k] == SYSTEM
    ensures DeniedMask(Resolve(entries, who)[..n], sid, ToTheObject) == DeniedMask(entries[..n], sid, ToTheObject)
    decreases n
  {
    if n > 0 {
      ResolvedDenies(entries, who, n - 1, sid);
      assert |EVERYONE| != |SYSTEM|;
      assert Resolve(entries, who)[..n][..n - 1] == Resolve(entries, who)[..n - 1];
      assert entries[..n][..n - 1] == entries[..n - 1];
    }
  }

  /** A grant that may be read as `sid`'s and outlasts what is denied to it is used when it is read so. */
  lemma {:induction false} ReadingUsesIt(entries: seq<Ace>, i: nat, sid: Sid)
    requires i < |entries| && entries[i].kind == Allow && !entries[i].inheritOnly && !IsPrivilegedSid(sid)
    requires (entries[i].trustee.Named? ==> entries[i].trustee.sid == sid) && Outlasts(entries, i, sid, ToTheObject)
    ensures SomeReadingWrites(entries)
  {
    var who := seq(|entries|, k requires 0 <= k < |entries| => if k == i then sid else SYSTEM);
    var actual := Resolve(entries, who);
    assert SYSTEM == PRIVILEGED_SIDS[0] && SYSTEM != sid;
    ResolvedDenies(entries, who, i, sid);
    assert actual[i] == entries[i].(trustee := Named(sid)) && IsFinding(actual, i, ToTheObject);
    FindingIsWritable(actual, i);
    var wanted: Mask :| wanted != {} && wanted <= WRITE_EQUIVALENT && AccessCheck(actual, TokenOf(sid), wanted);
    assert Grants(Present(actual), TokenOf(sid), wanted);
  }

  /** A usable finding is used under some reading. */
  lemma {:induction false} UsableIsUsed(entries: seq<Ace>, i: nat)
    requires i < |entries| && Usable(entries, i, ToTheObject)
    ensures SomeReadingWrites(entries)
  {
    WellKnownGroupsAreUnprivileged();
    if entries[i].trustee.Named? {
      ReadingUsesIt(entries, i, entries[i].trustee.sid);
    } else if Outlasts(entries, i, EVERYONE, ToTheObject) {
      ReadingUsesIt(entries, i, EVERYONE);
    } else {
      ReadingUsesIt(entries, i, ANONYMOUS_LOGON);
    }
  }

  /** A write under some reading goes through a usable finding. */
  lemma {:induction false} UsedIsUsable(entries: seq<Ace>, who: seq<Sid>) returns (i: nat)
    requires |who| == |entries| && UnprivilegedCanWrite(Present(Resolve(entries, who)))
    ensures i < |entries| && Usable(entries, i, ToTheObject)
  {
    var actual := Resolve(entries, who);
    var token: set<Sid>, r: Mask :| UnprivilegedToken(token) && r != {}
      && r <= WRITE_EQUIVALENT && Grants(Present(actual), token, r);
    i := GrantHasAFirstAllow(actual, token, r);
    var sid := if entries[i].trustee.Named? then entries[i].trustee.sid
               else if EVERYONE in token then EVERYONE else ANONYMOUS_LOGON;
    assert actual[i].trustee.sid in token;
    assert sid in token;
    DeniedMaskDisjoint(entries[..i], sid, ToTheObject, r);
    forall k | 0 <= k < i && DenyCounts(entries[..i][k], sid, ToTheObject)
      ensures entries[..i][k].mask !! r
    {
      assert entries[..i][k] == entries[k] == actual[k];
      assert Matches(actual[k], token);
    }
    KeepsAWriteBit(entries, i, r, ToTheObject);
    var bit :| bit in entries[i].mask && bit in r;
    assert bit in entries[i].mask * WRITE_EQUIVALENT - DeniedMask(entries[..i], sid, ToTheObject);
  }

  /**
   For every list: some reading lets an unprivileged token write exactly when there is a finding that names
   its principal, or an unreadable one whose write bits outlast the denies before it to Everyone or those
   to ANONYMOUS LOGON.
   */
  lemma {:induction false} SomeReadingWritesIff(entries: seq<Ace>)
    ensures SomeReadingWrites(entries) <==> SomeUsable(entries, ToTheObject)
  {
    if SomeReadingWrites(entries) {
      var who: seq<Sid> :| |who| == |entries| && UnprivilegedCanWrite(Present(Resolve(entries, who)));
      var i := UsedIsUsable(entries, who);
    }
    if i :| 0 <= i < |entries| && Usable(entries, i, ToTheObject) {
      UsableIsUsed(entries, i);
    }
  }

  const ALL_RIGHTS: Mask := set b: Bit | 0 <= b < 32

  /**
   What the reader produces: a grant it cannot decode is a grant of every right that files inherit, and a
   deny that applies to the object is generic-mapped. One that only files inherit is not.
   */
  ghost predicate AsRead(entries: seq<Ace>) {
    forall i :: 0 <= i < |entries| ==>
      && (entries[i].kind == Allow && entries[i].trustee.Unreadable? ==>
            entries[i].mask == ALL_RIGHTS && entries[i].objectInherit)
      && (entries[i].kind == Deny && !entries[i].inheritOnly ==> GENERIC_ALL !in entries[i].mask)
  }

  lemma {:induction false} NoGenericDeny(entries: seq<Ace>, n: nat, sid: Sid)
    requires n <= |entries| && AsRead(entries)
    ensures GENERIC_ALL !in DeniedMask(entries[..n], sid, ToTheObject)
    decreases n
  {
    if n > 0 {
      NoGenericDeny(entries, n - 1, sid);
      assert entries[..n][..n - 1] == entries[..n - 1];
    }
  }

  lemma {:induction false} FindingAsReadIsUsable(entries: seq<Ace>, i: nat)
    requires AsRead(entries) && i < |entries| && IsFinding(entries, i, ToTheObject)
    ensures Usable(entries, i, ToTheObject)
  {
    if entries[i].trustee.Unreadable? {
      NoGenericDeny(entries, i, EVERYONE);
      assert GENERIC_ALL in entries[i].mask * WRITE_EQUIVALENT - DeniedMask(entries[..i], EVERYONE, ToTheObject);
    }
  }

  lemma {:induction false} JudgedIffUsable(entries: seq<Ace>)
    requires AsRead(entries)
    ensures Judge(Present(entries)).UnprivilegedWrite? <==> SomeUsable(entries, ToTheObject)
  {
    JudgeFromFinds(entries, 0, ToTheObject);
    if k :| 0 <= k < |entries| && IsFinding(entries, k, ToTheObject) {
      FindingAsReadIsUsable(entries, k);
    }
  }

  /** On every list the reader can produce the verdict about the object is exact: a finding iff some reading writes. */
  lemma {:induction false} JudgeIsExactAsRead(entries: seq<Ace>)
    requires AsRead(entries)
    ensures Judge(Present(entries)).UnprivilegedWrite? <==> SomeReadingWrites(entries)
  {
    JudgedIffUsable(entries);
    SomeReadingWritesIff(entries);
  }

  // ---------------------------------------------------------------- inheritance

  /** The DACL a file created in the directory inherits: the object-inherit ACEs, in order, applying to it. */
  function Inherited(entries: seq<Ace>): seq<Ace> {
    if entries == [] then [] else
      var n := |entries| - 1;
      Inherited(entries[..n])
      + (if entries[n].objectInherit then [entries[n].(inheritOnly := false)] else [])
  }

  lemma {:induction false} InheritedDenies(entries: seq<Ace>, granted: Sid)
    ensures DeniedMask(Inherited(entries), granted, ToTheObject) == DeniedMask(entries, granted, ToCreatedFiles)
  {
    if entries != [] {
      var n := |entries| - 1;
      InheritedDenies(entries[..n], granted);
      if entries[n].objectInherit {
        var kept := Inherited(entries[..n]);
        var whole := Inherited(entries);
        assert whole == kept + [entries[n].(inheritOnly := false)];
        assert whole[..|whole| - 1] == kept;
      } else {
        assert Inherited(entries) == Inherited(entries[..n]);
      }
    }
  }

  /** Judging a list one entry longer: the earlier verdict stands, else the new entry decides. */
  lemma {:induction false} JudgeSnoc(entries: seq<Ace>, last: Ace, i: nat, applies: Ace -> bool)
    requires i <= |entries|
    ensures JudgeFrom(entries + [last], i, applies) ==
            if JudgeFrom(entries, i, applies).UnprivilegedWrite? then JudgeFrom(entries, i, applies)
            else JudgeFrom(entries + [last], |entries|, applies)
    decreases |entries| - i
  {
    if i < |entries| {
      JudgeSnoc(entries, last, i + 1, applies);
      assert (entries + [last])[..i] == entries[..i];
      assert (entries + [last])[i] == entries[i];
    }
  }

  lemma {:induction false} InheritedVerdict(entries: seq<Ace>)
    ensures JudgeFrom(Inherited(entries), 0, ToTheObject) == JudgeFrom(entries, 0, ToCreatedFiles)
  {
    if entries != [] {
      var n := |entries| - 1;
      var front, last := entries[..n], entries[n];
      assert entries == front + [last];
      InheritedVerdict(front);
      JudgeSnoc(front, last, 0, ToCreatedFiles);
      if last.objectInherit {
        var kept := Inherited(front);
        var copy := last.(inheritOnly := false);
        JudgeSnoc(kept, copy, 0, ToTheObject);
        if last.trustee.Named? { InheritedDenies(front, last.trustee.sid); }
        assert (kept + [copy])[..|kept|] == kept && (front + [last])[..n] == front;
        assert IsFinding(kept + [copy], |kept|, ToTheObject) == IsFinding(front + [last], n, ToCreatedFiles);
      } else {
        assert Inherited(entries) == Inherited(front);
      }
    }
  }

  /** Judging the files to come is judging the DACL they will inherit, named trustee included. */
  lemma {:induction false} InheritanceCommutes(entries: seq<Ace>)
    ensures JudgeFilesCreatedIn(Present(entries)) == Judge(Present(Inherited(entries)))
  {
    InheritedVerdict(entries);
  }

  /** So the file question is exact too, for the access the inherited entries really give. */
  lemma {:induction false} JudgeFilesIsExact(entries: seq<Ace>)
    requires AllReadable(Present(Inherited(entries)))
    ensures JudgeFilesCreatedIn(Present(entries)).UnprivilegedWrite? <==>
            UnprivilegedCanWrite(Present(Inherited(entries)))
  {
    InheritanceCommutes(entries);
    JudgeIsExact(Present(Inherited(entries)));
  }

  // ---------------------------------------------------------------- created files and unreadable trustees

  lemma {:induction false} UsableSnoc(front: seq<Ace>, last: Ace, applies: Ace -> bool)
    ensures SomeUsable(front + [last], applies) <==>
            SomeUsable(front, applies) || Usable(front + [last], |front|, applies)
  {
    var whole := front + [last];
    forall i | 0 <= i < |front| ensures Usable(whole, i, applies) <==> Usable(front, i, applies) {
      assert whole[..i] == front[..i] && whole[i] == front[i];
    }
    if i :| 0 <= i < |front| && Usable(front, i, applies) { assert Usable(whole, i, applies); }
  }

  /** Some finding about created files is usable in the directory's list exactly when one of the inherited list is. */
  lemma {:induction false} InheritedUsable(entries: seq<Ace>)
    ensures SomeUsable(Inherited(entries), ToTheObject) <==> SomeUsable(entries, ToCreatedFiles)
  {
    if entries != [] {
      var n := |entries| - 1;
      var front, last := entries[..n], entries[n];
      assert entries == front + [last];
      InheritedUsable(front);
      UsableSnoc(front, last, ToCreatedFiles);
      if last.objectInherit {
        LastInheritedUsable(front, last);
        UsableSnoc(Inherited(front), last.(inheritOnly := false), ToTheObject);
        assert Inherited(entries) == Inherited(front) + [last.(inheritOnly := false)];
      } else {
        assert Inherited(entries) == Inherited(front) && !Usable(front + [last], n, ToCreatedFiles);
      }
    }
  }

  lemma {:induction false} LastInheritedUsable(front: seq<Ace>, last: Ace)
    requires last.objectInherit
    ensures var kept := Inherited(front);
            Usable(kept + [last.(inheritOnly := false)], |kept|, ToTheObject) <==>
            Usable(front + [last], |front|, ToCreatedFiles)
  {
    var kept, copy := Inherited(front), last.(inheritOnly := false);
    assert (kept + [copy])[..|kept|] == kept && (front + [last])[..|front|] == front;
    InheritedDenies(front, EVERYONE);
    InheritedDenies(front, ANONYMOUS_LOGON);
    if last.trustee.Named? { InheritedDenies(front, last.trustee.sid); }
  }

  ghost predicate SomeFinding(entries: seq<Ace>, applies: Ace -> bool) {
    exists i :: 0 <= i < |entries| && IsFinding(entries, i, applies)
  }

  /**
   For every list: the verdict about created files is exact, over the readings of the list they inherit,
   unless each of its findings is an unreadable grant whose write bits are all denied before it, by
   inheritable denies, both to Everyone and to ANONYMOUS LOGON; then it reports what no reading allows.
   */
  lemma {:induction false} JudgeFilesIsExactIff(entries: seq<Ace>)
    ensures SomeReadingWrites(Inherited(entries)) <==> SomeUsable(entries, ToCreatedFiles)
    ensures JudgeFilesCreatedIn(Present(entries)).UnprivilegedWrite? <==> SomeFinding(entries, ToCreatedFiles)
    ensures (JudgeFilesCreatedIn(Present(entries)).UnprivilegedWrite? <==> SomeReadingWrites(Inherited(entries))) <==>
            !(SomeFinding(entries, ToCreatedFiles) && !SomeUsable(entries, ToCreatedFiles))
  {
    SomeReadingWritesIff(Inherited(entries));
    InheritedUsable(entries);
    JudgeFromFinds(entries, 0, ToCreatedFiles);
  }

  /** On a list the reader can produce it is exact when no deny that files inherit carries a generic right. */
  lemma {:induction false} JudgeFilesIsExactAsRead(entries: seq<Ace>)
    requires AsRead(entries)
    requires forall i :: 0 <= i < |entries| && entries[i].kind == Deny && entries[i].objectInherit ==>
               GENERIC_ALL !in entries[i].mask
    ensures JudgeFilesCreatedIn(Present(entries)).UnprivilegedWrite? <==> SomeReadingWrites(Inherited(entries))
  {
    InheritanceCommutes(entries);
    InheritedAsRead(entries);
    JudgeIsExactAsRead(Inherited(entries));
  }

  lemma {:induction false} InheritedAsRead(entries: seq<Ace>)
    requires AsRead(entries)
    requires forall i :: 0 <= i < |entries| && entries[i].kind == Deny && entries[i].objectInherit ==>
               GENERIC_ALL !in entries[i].mask
    ensures AsRead(Inherited(entries))
  {
    if entries != [] { InheritedAsRead(entries[..|entries| - 1]); }
  }

  /** Such denies can be read: inherit-only, of every right, to both groups, before a grant that cannot be decoded. */
  const BOTH_GROUPS_DENIED: seq<Ace> :=
    [ Ace(Deny, Named(EVERYONE), ALL_RIGHTS, true, true), Ace(Deny, Named(ANONYMOUS_LOGON), ALL_RIGHTS, true, true),
      Ace(Allow, Unreadable, ALL_RIGHTS, true, true) ]

  lemma {:induction false} BothGroupsAreDenied()
    ensures DeniedMask(BOTH_GROUPS_DENIED[..2], EVERYONE, ToCreatedFiles) == ALL_RIGHTS
    ensures DeniedMask(BOTH_GROUPS_DENIED[..2], ANONYMOUS_LOGON, ToCreatedFiles) == ALL_RIGHTS
  {
    var entries := BOTH_GROUPS_DENIED;
    var first, both := entries[..1], entries[..2];
    assert first[..0] == [] && both[..1] == first && first[0] == entries[0] && both[1] == entries[1];
    WellKnownGroupsAreUnprivileged();
    assert DeniedMask([], EVERYONE, ToCreatedFiles) == {} && DeniedMask(first, EVERYONE, ToCreatedFiles) == ALL_RIGHTS;
  }

  lemma {:induction false} TheGrantIsAllDenied(mask: Mask)
    ensures mask * WRITE_EQUIVALENT - ALL_RIGHTS == {}
  {}

  lemma {:induction false} NoneOfThemIsUsable()
    ensures !SomeUsable(BOTH_GROUPS_DENIED, ToCreatedFiles)
  {
    BothGroupsAreDenied();
    TheGrantIsAllDenied(BOTH_GROUPS_DENIED[2].mask);
    assert !Usable(BOTH_GROUPS_DENIED, 2, ToCreatedFiles);
  }

  lemma {:induction false} TheGrantIsAFinding()
    ensures SomeFinding(BOTH_GROUPS_DENIED, ToCreatedFiles)
  {
    assert DeniedMaskFor(BOTH_GROUPS_DENIED[..2], Unreadable, ToCreatedFiles) == {};
    assert GENERIC_ALL in BOTH_GROUPS_DENIED[2].mask * WRITE_EQUIVALENT - {};
    assert IsFinding(BOTH_GROUPS_DENIED, 2, ToCreatedFiles);
  }

  lemma {:induction false} HarmlessFinding(entries: seq<Ace>)
    requires SomeFinding(entries, ToCreatedFiles) && !SomeUsable(entries, ToCreatedFiles)
    ensures JudgeFilesCreatedIn(Present(entries)).UnprivilegedWrite? && !SomeReadingWrites(Inherited(entries))
  {
    JudgeFilesIsExactIff(entries);
  }

  lemma {:induction false} SuchAListCanBeRead()
    ensures AsRead(BOTH_GROUPS_DENIED)
  {}

  /** There the verdict about files is a finding although no reading lets an unprivileged token write one. */
  lemma {:induction false} FilesFindingCanBeHarmless(entries: seq<Ace>)
    requires entries == BOTH_GROUPS_DENIED
    ensures AsRead(entries) && JudgeFilesCreatedIn(Present(entries)).UnprivilegedWrite?
    ensures !SomeReadingWrites(Inherited(entries))
  {
    SuchAListCanBeRead();
    TheGrantIsAFinding();
    NoneOfThemIsUsable();
    HarmlessFinding(entries);
  }

  /** A deny AFTER the grant excuses nothing; the same deny before it does. */
  lemma {:induction false} DenyOrderMatters(sid: Sid, bits: Mask)
    requires !IsPrivilegedSid(sid) && bits <= WRITE_EQUIVALENT && bits != {}
    ensures var grant, deny := Ace(Allow, Named(sid), bits, false, false), Ace(Deny, Named(sid), bits, false, false);
            Judge(Present([grant, deny])) == UnprivilegedWrite(sid)
            && Judge(Present([deny, grant])) == PrivilegedWriteOnly
  {
    var grant, deny := Ace(Allow, Named(sid), bits, false, false), Ace(Deny, Named(sid), bits, false, false);
    var a, b := [grant, deny], [deny, grant];
    assert a[..0] == [] && DeniedMask(a[..0], sid, ToTheObject) == {};
    assert IsFinding(a, 0, ToTheObject);
    assert b[..1] == [deny] && [deny][..0] == [];
    assert DeniedMask([deny], sid, ToTheObject) == bits;
    assert !IsFinding(b, 1, ToTheObject) && !IsFinding(b, 0, ToTheObject);
    assert JudgeFrom(b, 2, ToTheObject) == PrivilegedWriteOnly;
    assert JudgeFrom(b, 1, ToTheObject) == PrivilegedWriteOnly;
  }
}
