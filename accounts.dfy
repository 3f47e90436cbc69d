/** Passwordless sign-up (accounts/views.py): registering an email creates an
    inactive account under a username derived from the email, and following
    the emailed link activates it. */
module Accounts {
  import opened Common

  /** The part of a `User` that registration and verification touch. */
  datatype User = User(username: string, email: string, isActive: bool)

  // ---------------------------------------------------------------------------
  // Choosing a username
  // ---------------------------------------------------------------------------

  /** `email.split('@')[0]`: the text before the first '@', or the whole
      email when it has none. */
  function BaseUsername(email: string): (r: string)
    ensures |r| <= |email| && r == email[..|r|] && '@' !in r
    ensures '@' in email ==> |r| < |email| && email[|r|] == '@'
    ensures '@' !in email ==> r == email
  {
    SplitHead(email, '@');
    Split(email, '@')[0]
  }

  /** The k-th name the loop tries: the base itself, then the base followed
      by 1, 2, 3, ... in decimal. */
  function Candidate(base: string, k: nat): string {
    if k == 0 then base else base + NatToDecimal(k)
  }

  /** Different attempts try different names. */
  lemma CandidateInjective(base: string, j: nat, k: nat)
    requires Candidate(base, j) == Candidate(base, k)
    ensures j == k
  {
    if j != 0 && k != 0 {
      assert NatToDecimal(j) == Candidate(base, j)[|base|..];
      assert NatToDecimal(k) == Candidate(base, k)[|base|..];
      DecimalInjective(j, k);
    }
  }

  /** The names of the first `n` attempts. */
  ghost function CandidatesBelow(base: string, n: nat): set<string> {
    if n == 0 then {} else CandidatesBelow(base, n - 1) + {Candidate(base, n - 1)}
  }

  lemma {:induction false} CandidatesBelowMembers(base: string, n: nat, k: nat)
    ensures Candidate(base, k) in CandidatesBelow(base, n) <==> k < n
  {
    if n > 0 {
      CandidatesBelowMembers(base, n - 1, k);
      if Candidate(base, k) == Candidate(base, n - 1) {
        CandidateInjective(base, k, n - 1);
      }
    }
  }

  lemma {:induction false} CandidatesBelowSize(base: string, n: nat)
    ensures |CandidatesBelow(base, n)| == n
  {
    if n > 0 {
      CandidatesBelowSize(base, n - 1);
      CandidatesBelowMembers(base, n - 1, n - 1);
    }
  }

  lemma {:induction false} CandidatesBelowTaken(base: string, taken: set<string>, n: nat)
    requires forall j :: 0 <= j < n ==> Candidate(base, j) in taken
    ensures CandidatesBelow(base, n) <= taken
  {
    if n > 0 {
      CandidatesBelowTaken(base, taken, n - 1);
    }
  }

  /** When the first `n` attempts all hit taken names, at least `n` names are
      taken; so the search ends after at most one attempt more than there are
      taken names. */
  lemma TakenBound(base: string, taken: set<string>, n: nat)
    requires forall j :: 0 <= j < n ==> Candidate(base, j) in taken
    ensures n <= |taken|
  {
    var tried := CandidatesBelow(base, n);
    CandidatesBelowSize(base, n);
    CandidatesBelowTaken(base, taken, n);
    assert taken == tried + (taken - tried);
  }

  /** The first free name from the k-th attempt on. */
  function FirstFree(base: string, taken: set<string>, k: nat): string
    requires forall j :: 0 <= j < k ==> Candidate(base, j) in taken
    decreases |taken| - k
  {
    if Candidate(base, k) !in taken then Candidate(base, k)
    else
      TakenBound(base, taken, k + 1);
      FirstFree(base, taken, k + 1)
  }

  /** `FirstFree` gives a name that is not taken, and every attempt before it
      hit a taken name. */
  lemma {:induction false} FirstFreeIsFirst(base: string, taken: set<string>, k: nat)
    requires forall j :: 0 <= j < k ==> Candidate(base, j) in taken
    ensures FirstFree(base, taken, k) !in taken
    ensures exists n: nat :: k <= n && FirstFree(base, taken, k) == Candidate(base, n)
              && forall j :: 0 <= j < n ==> Candidate(base, j) in taken
    decreases |taken| - k
  {
    if Candidate(base, k) in taken {
      TakenBound(base, taken, k + 1);
      FirstFreeIsFirst(base, taken, k + 1);
    } else {
      assert FirstFree(base, taken, k) == Candidate(base, k);
    }
  }

  /** The username registration picks for `email` given the taken names. */
  function ChosenUsername(email: string, taken: set<string>): string {
    FirstFree(BaseUsername(email), taken, 0)
  }

  /** The chosen username is free; it is the base itself when that is free,
      and otherwise the base followed by the smallest number k >= 1 that
      gives a free name. */
  lemma ChosenUsernameIsFirstFree(email: string, taken: set<string>)
    ensures ChosenUsername(email, taken) !in taken
    ensures BaseUsername(email) !in taken ==> ChosenUsername(email, taken) == BaseUsername(email)
    ensures BaseUsername(email) in taken ==>
              exists k: nat :: 1 <= k
                && ChosenUsername(email, taken) == BaseUsername(email) + NatToDecimal(k)
                && forall j :: 1 <= j < k ==> BaseUsername(email) + NatToDecimal(j) in taken
  {
    var base := BaseUsername(email);
    FirstFreeIsFirst(base, taken, 0);
    var n: nat :| ChosenUsername(email, taken) == Candidate(base, n)
                  && forall j :: 0 <= j < n ==> Candidate(base, j) in taken;
    if base in taken {
      assert ChosenUsername(email, taken) == FirstFree(base, taken, 0);
      assert n != 0;
      forall j | 1 <= j < n
        ensures base + NatToDecimal(j) in taken
      {
        assert Candidate(base, j) in taken;
      }
    }
  }

  /** The username loop of `register`: try the base, then the base followed
      by 1, 2, ... until a name is free. */
  method ChooseUsername(email: string, taken: set<string>) returns (username: string)
    ensures username == ChosenUsername(email, taken)
  {
    var base := BaseUsername(email);
    username := base;
    var counter := 1;
    while username in taken
      invariant 1 <= counter
      invariant username == Candidate(base, counter - 1)
      invariant forall j :: 0 <= j < counter - 1 ==> Candidate(base, j) in taken
      invariant FirstFree(base, taken, counter - 1) == FirstFree(base, taken, 0)
      decreases |taken| - (counter - 1)
    {
      TakenBound(base, taken, counter);
      username := base + NatToDecimal(counter);
      counter := counter + 1;
    }
  }

  // ---------------------------------------------------------------------------
  // register and verify_email on the user table
  // ---------------------------------------------------------------------------

  /** The user table and the next primary key it hands out. */
  datatype Directory = Directory(users: map<UserId, User>, nextUserId: UserId)

  /** The usernames in use. */
  function Usernames(users: map<UserId, User>): set<string> {
    set id | id in users :: users[id].username
  }

  /** Whether some account already has this email. */
  predicate EmailHeld(users: map<UserId, User>, email: string) {
    exists id :: id in users && users[id].email == email
  }

  /** Keys below the next one and usernames unique (the table's constraint).
      Emails carry no unique constraint. */
  predicate WellFormed(d: Directory) {
    && (forall id :: id in d.users ==> id < d.nextUserId)
    && (forall i, j :: i in d.users && j in d.users && d.users[i].username == d.users[j].username ==> i == j)
  }

  // ---------------------------------------------------------------------------
  // The email create_user stores
  // ---------------------------------------------------------------------------

  /** The index of the last '@' of `s`, where `rsplit('@', 1)` cuts. */
  function LastAt(s: string): (i: nat)
    requires '@' in s
    ensures i < |s| && s[i] == '@'
    ensures forall k :: i < k < |s| ==> s[k] != '@'
  {
    if s[|s| - 1] == '@' then |s| - 1
    else
      var init := s[..|s| - 1];
      assert '@' in init by {
        var k :| 0 <= k < |s| && s[k] == '@';
        assert init[k] == '@';
      }
      LastAt(init)
  }

  /** Only one position holds the last '@'. */
  lemma LastAtUnique(s: string, i: nat)
    requires i < |s| && s[i] == '@'
    requires forall k :: i < k < |s| ==> s[k] != '@'
    ensures LastAt(s) == i
  {
  }

  /** `BaseUserManager.normalize_email` on an email that is already stripped:
      the domain, after the last '@', is lower-cased; the name before it and
      an email without '@' are kept as they are. */
  function NormalizeEmail(email: string): string {
    if '@' !in email then email
    else
      var i := LastAt(email);
      email[..i + 1] + LowerCase(email[i + 1..])
  }

  /** Keeping `e` up to index `i` and lower-casing the rest keeps the length
      and changes each later character to its lower-case form. */
  lemma LowerAfter(e: string, i: nat)
    requires i < |e|
    ensures |e[..i + 1] + LowerCase(e[i + 1..])| == |e|
    ensures forall k :: 0 <= k < |e| ==>
              (e[..i + 1] + LowerCase(e[i + 1..]))[k] == if k > i then ToLower(e[k]) else e[k]
  {
    var r := e[..i + 1] + LowerCase(e[i + 1..]);
    forall k | 0 <= k < |e|
      ensures r[k] == if k > i then ToLower(e[k]) else e[k]
    {
      if k > i {
        assert r[k] == LowerCase(e[i + 1..])[k - i - 1];
      }
    }
  }

  /** Normalising keeps the length and every character up to the last '@',
      and lower-cases every character after it; an email without '@' is kept
      whole. */
  lemma NormalizeEmailShape(email: string)
    ensures |NormalizeEmail(email)| == |email|
    ensures forall k :: 0 <= k < |email| ==>
              NormalizeEmail(email)[k]
                == if '@' in email && k > LastAt(email) then ToLower(email[k]) else email[k]
  {
    if '@' in email {
      LowerAfter(email, LastAt(email));
    }
  }

  /** Lower-casing twice is lower-casing once. */
  lemma LowerCaseIdempotent(x: string)
    ensures LowerCase(LowerCase(x)) == LowerCase(x)
  {
  }

  /** Lower-casing text without '@' gives text without '@'. */
  lemma LowerCaseKeepsNoAt(x: string)
    requires forall k :: 0 <= k < |x| ==> x[k] != '@'
    ensures forall k :: 0 <= k < |x| ==> LowerCase(x)[k] != '@'
  {
  }

  /** Normalising an email whose last '@' is at `i`. */
  lemma NormalizeAt(e: string, i: nat)
    requires i < |e| && e[i] == '@'
    requires forall k :: i < k < |e| ==> e[k] != '@'
    ensures NormalizeEmail(e) == e[..i + 1] + LowerCase(e[i + 1..])
  {
    LastAtUnique(e, i);
  }

  /** Normalising a normalised email changes nothing. */
  lemma NormalizeEmailIdempotent(email: string)
    ensures NormalizeEmail(NormalizeEmail(email)) == NormalizeEmail(email)
  {
    if '@' in email {
      var i := LastAt(email);
      var name, domain := email[..i + 1], email[i + 1..];
      NormalizeAt(email, i);
      var lower := LowerCase(domain);
      var r := name + lower;
      assert forall k :: 0 <= k < |domain| ==> domain[k] == email[i + 1 + k];
      LowerCaseKeepsNoAt(domain);
      assert r[i] == '@' by {
        assert r[i] == name[i];
      }
      forall k | i < k < |r|
        ensures r[k] != '@'
      {
        assert r[k] == lower[k - i - 1];
      }
      NormalizeAt(r, i);
      assert r[..i + 1] == name && r[i + 1..] == lower;
      LowerCaseIdempotent(domain);
    }
  }

  /** `request.POST.get('email', '').strip()`. */
  function SubmittedEmail(post: Post): string {
    Strip(GetOr(post, "email", ""))
  }

  /** How a registration POST ends. `CreateFailed` is `create_user` refusing
      an empty username (an email starting with '@'). */
  datatype RegisterOutcome =
    | AlreadyLoggedIn
    | EmptyEmail
    | EmailInUse
    | CreateFailed
    | SendFailed
    | LinkSent(user: UserId)

  datatype RegisterResult = RegisterResult(dir: Directory, outcome: RegisterOutcome)

  /** `register` on a POST: a signed-in visitor, a blank email or an email
      some account holds exactly as submitted changes nothing; otherwise an
      inactive account is created under the chosen username with the
      normalised email, and removed again when the link cannot be sent. The
      primary key is used up either way. */
  function RegisterStep(d: Directory, authenticated: bool, post: Post, sendSucceeds: bool): (r: RegisterResult)
    requires WellFormed(d)
    ensures r.outcome.LinkSent? <==>
              && !authenticated && SubmittedEmail(post) != []
              && !EmailHeld(d.users, SubmittedEmail(post))
              && ChosenUsername(SubmittedEmail(post), Usernames(d.users)) != []
              && sendSucceeds
    ensures r.outcome.LinkSent? ==>
              && r.outcome.user !in d.users
              && r.dir.users == d.users[r.outcome.user :=
                   User(ChosenUsername(SubmittedEmail(post), Usernames(d.users)),
                        NormalizeEmail(SubmittedEmail(post)), false)]
    ensures !r.outcome.LinkSent? ==> r.dir.users == d.users
    ensures r.dir.nextUserId >= d.nextUserId
  {
    var email := SubmittedEmail(post);
    if authenticated then RegisterResult(d, AlreadyLoggedIn)
    else if email == [] then RegisterResult(d, EmptyEmail)
    else if EmailHeld(d.users, email) then RegisterResult(d, EmailInUse)
    else
      var username := ChosenUsername(email, Usernames(d.users));
      if username == [] then RegisterResult(d, CreateFailed)
      else
        var id := d.nextUserId;
        var created := d.users[id := User(username, NormalizeEmail(email), false)];
        if sendSucceeds then RegisterResult(Directory(created, id + 1), LinkSent(id))
        else
          assert created - {id} == d.users;
          RegisterResult(Directory(created - {id}, id + 1), SendFailed)
  }

  /** Registration keeps keys fresh and usernames unique. */
  lemma RegisterKeepsWellFormed(d: Directory, authenticated: bool, post: Post, sendSucceeds: bool)
    requires WellFormed(d)
    ensures WellFormed(RegisterStep(d, authenticated, post, sendSucceeds).dir)
  {
    var r := RegisterStep(d, authenticated, post, sendSucceeds);
    if r.outcome.LinkSent? {
      var username := ChosenUsername(SubmittedEmail(post), Usernames(d.users));
      ChosenUsernameIsFirstFree(SubmittedEmail(post), Usernames(d.users));
      forall i | i in d.users
        ensures d.users[i].username != username
      {
        assert d.users[i].username in Usernames(d.users);
      }
    }
  }

  /** The loop ends on the empty name, which `create_user` refuses, exactly
      when the email starts with '@' and no account has the empty name. */
  lemma ChosenUsernameEmpty(email: string, taken: set<string>)
    ensures ChosenUsername(email, taken) == [] <==> BaseUsername(email) == [] && [] !in taken
  {
    ChosenUsernameIsFirstFree(email, taken);
    if BaseUsername(email) in taken {
      var k: nat :| 1 <= k && ChosenUsername(email, taken) == BaseUsername(email) + NatToDecimal(k);
    }
  }

  /** Once an email whose domain is already lower-case has an account,
      registering it again creates nothing. */
  lemma RegisteredEmailRefused(d: Directory, post: Post, sendSucceeds: bool, again: bool)
    requires WellFormed(d)
    requires NormalizeEmail(SubmittedEmail(post)) == SubmittedEmail(post)
    requires RegisterStep(d, false, post, sendSucceeds).outcome.LinkSent?
    ensures WellFormed(RegisterStep(d, false, post, sendSucceeds).dir)
    ensures var d2 := RegisterStep(d, false, post, sendSucceeds).dir;
      RegisterStep(d2, false, post, again) == RegisterResult(d2, EmailInUse)
  {
    var r := RegisterStep(d, false, post, sendSucceeds);
    RegisterKeepsWellFormed(d, false, post, sendSucceeds);
    assert r.dir.users[r.outcome.user].email == SubmittedEmail(post);
  }

  /** The duplicate check compares the email as submitted with the stored,
      normalised ones. So an email whose domain has a capital letter passes
      the check again once its account exists: the same address gets a
      second account, under another username, with the same stored email. */
  lemma MixedCaseDomainRegistersTwice(d: Directory, post: Post)
    requires WellFormed(d)
    requires NormalizeEmail(SubmittedEmail(post)) != SubmittedEmail(post)
    requires RegisterStep(d, false, post, true).outcome.LinkSent?
    ensures WellFormed(RegisterStep(d, false, post, true).dir)
    ensures var r1 := RegisterStep(d, false, post, true);
      var r2 := RegisterStep(r1.dir, false, post, true);
      && r2.outcome.LinkSent?
      && r2.outcome.user != r1.outcome.user
      && r2.dir.users[r1.outcome.user].email == r2.dir.users[r2.outcome.user].email
      && r2.dir.users[r1.outcome.user].username != r2.dir.users[r2.outcome.user].username
  {
    var email := SubmittedEmail(post);
    var r1 := RegisterStep(d, false, post, true);
    var taken1 := Usernames(d.users);
    var taken2 := Usernames(r1.dir.users);
    RegisterKeepsWellFormed(d, false, post, true);
    assert !EmailHeld(r1.dir.users, email) by {
      forall id | id in r1.dir.users ensures r1.dir.users[id].email != email {
        if id != r1.outcome.user {
          assert id in d.users;
        }
      }
    }
    assert taken1 <= taken2 by {
      forall u | u in taken1 ensures u in taken2 {
        var id :| id in d.users && d.users[id].username == u;
        assert r1.dir.users[id] == d.users[id];
      }
    }
    ChosenUsernameEmpty(email, taken1);
    ChosenUsernameEmpty(email, taken2);
    var u1 := ChosenUsername(email, taken1);
    assert u1 in taken2 by {
      assert r1.dir.users[r1.outcome.user].username == u1;
    }
    ChosenUsernameIsFirstFree(email, taken2);
  }

  /** `verify_email`: with a link naming an existing account and a valid
      token, that account becomes active and nothing else changes; otherwise
      nothing changes. */
  function VerifyStep(d: Directory, uid: Option<UserId>, tokenValid: bool): (r: (Directory, bool))
    ensures r.1 <==> uid.Some? && uid.value in d.users && tokenValid
    ensures r.1 ==> r.0 == d.(users := d.users[uid.value := d.users[uid.value].(isActive := true)])
    ensures !r.1 ==> r.0 == d
  {
    if uid.None? || uid.value !in d.users then (d, false)
    else if tokenValid then (d.(users := d.users[uid.value := d.users[uid.value].(isActive := true)]), true)
    else (d, false)
  }

  /** Verification changes only the activity flag, so it keeps the table well
      formed. */
  lemma VerifyKeepsWellFormed(d: Directory, uid: Option<UserId>, tokenValid: bool)
    requires WellFormed(d)
    ensures WellFormed(VerifyStep(d, uid, tokenValid).0)
  {
  }

  /** A new account is inactive until its link is followed with a valid
      token, and active afterwards. */
  lemma RegisterThenVerify(d: Directory, post: Post)
    requires WellFormed(d)
    requires RegisterStep(d, false, post, true).outcome.LinkSent?
    ensures var r := RegisterStep(d, false, post, true);
      && !r.dir.users[r.outcome.user].isActive
      && VerifyStep(r.dir, Some(r.outcome.user), true).0.users[r.outcome.user].isActive
      && VerifyStep(r.dir, Some(r.outcome.user), false).0 == r.dir
  {
  }

  // ---------------------------------------------------------------------------
  // The views, performed in place
  // ---------------------------------------------------------------------------

  /** The user table. */
  class AccountStore {
    var users: map<UserId, User>
    var nextUserId: UserId

    function Snapshot(): Directory
      reads this
    {
      Directory(users, nextUserId)
    }

    ghost predicate Valid()
      reads this
    {
      WellFormed(Snapshot())
    }

    constructor ()
      ensures Valid() && users == map[] && nextUserId == 0
    {
      users := map[];
      nextUserId := 0;
    }

    /** A POST to `register`. `sendSucceeds` says whether the mail server
        accepted the link. */
    method Register(authenticated: bool, post: Post, sendSucceeds: bool) returns (outcome: RegisterOutcome)
      requires Valid()
      modifies this
      ensures Valid()
      ensures RegisterResult(Snapshot(), outcome) == RegisterStep(old(Snapshot()), authenticated, post, sendSucceeds)
    {
      ghost var before := Snapshot();
      if authenticated {
        return AlreadyLoggedIn;
      }
      var email := SubmittedEmail(post);
      if email == [] {
        return EmptyEmail;
      }
      if EmailHeld(users, email) {
        return EmailInUse;
      }
      var username := ChooseUsername(email, Usernames(users));
      if username == [] {
        return CreateFailed;
      }
      outcome := CreateAndSend(username, NormalizeEmail(email), sendSucceeds);
      RegisterKeepsWellFormed(before, authenticated, post, sendSucceeds);
    }

    /** The account creation of `register` and its rollback: the user is
        created with the normalised email, deactivated, and deleted again
        when the link cannot be sent. */
    method CreateAndSend(username: string, email: string, sendSucceeds: bool) returns (outcome: RegisterOutcome)
      requires Valid()
      modifies this
      ensures sendSucceeds ==> outcome == LinkSent(old(nextUserId))
                               && users == old(users)[old(nextUserId) := User(username, email, false)]
      ensures !sendSucceeds ==> outcome == SendFailed && users == old(users)
      ensures nextUserId == old(nextUserId) + 1
    {
      var id := nextUserId;
      var user := User(username, email, true);
      users := users[id := user];
      nextUserId := nextUserId + 1;
      user := user.(isActive := false);
      users := users[id := user];
      if !sendSucceeds {
        users := users - {id};
        assert users == old(users);
        return SendFailed;
      }
      outcome := LinkSent(id);
    }

    /** A visit to `verify_email`. `uid` is the decoded id from the link (None
        when it does not decode) and `tokenValid` the token check's verdict. */
    method VerifyEmail(uid: Option<UserId>, tokenValid: bool) returns (verified: bool)
      requires Valid()
      modifies this
      ensures Valid()
      ensures (Snapshot(), verified) == VerifyStep(old(Snapshot()), uid, tokenValid)
    {
      if uid.None? || uid.value !in users {
        return false;
      }
      if !tokenValid {
        return false;
      }
      users := users[uid.value := users[uid.value].(isActive := true)];
      verified := true;
    }
  }
}
