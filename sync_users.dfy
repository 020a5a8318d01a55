/**
 * The maintenance script that copies profiles into the authentication service
 * (`syncUsersToAuth`): it reads every profile and every existing account, and creates an
 * account for each profile whose lower-cased email is not among the lower-cased existing
 * emails, counting successes and failures.
 */
module SyncUsers {
  import opened Wrappers
  import opened Text
  import opened Profiles

  /** The temporary password every created account gets. */
  const TempPassword: string := "TempPassword123!"

  /** `auth.admin.createUser({ email, password, email_confirm: true, user_metadata })`. */
  datatype CreateRequest = CreateRequest(
    email: string,
    password: string,
    emailConfirm: bool,
    fullName: Option<string>,
    role: Option<string>)

  /** What one create call came back with: success, an error result, or an exception. */
  datatype CreateOutcome = Created | Rejected | Threw

  /**
   * How the run ended: a failed profile read or account listing returns at once; an
   * account or profile without email makes `toLowerCase` throw and the outer `catch` ends
   * the run after the creates already made; otherwise the summary with both counters.
   */
  datatype SyncReport =
    | ProfilesFailed
    | UsersFailed
    | Crashed(attempted: seq<CreateRequest>)
    | Completed(attempted: seq<CreateRequest>, synced: nat, errors: nat)

  predicate AllEmails(emails: seq<Option<string>>) {
    forall i :: 0 <= i < |emails| ==> emails[i].Some?
  }

  /** `users.map(user => user.email.toLowerCase())`. */
  function LowerAll(emails: seq<Option<string>>): (r: seq<string>)
    requires AllEmails(emails)
    ensures |r| == |emails| && forall i :: 0 <= i < |emails| ==> r[i] == Lower(emails[i].value)
  {
    seq(|emails|, i requires 0 <= i < |emails| => Lower(emails[i].value))
  }

  predicate HasEmails(ps: seq<Profile>) {
    forall i :: 0 <= i < |ps| ==> ps[i].email.Some?
  }

  /** The position of the first profile without email, or |ps|. */
  function FirstMissing(ps: seq<Profile>): (k: nat)
    ensures k <= |ps| && HasEmails(ps[..k])
    ensures k < |ps| ==> ps[k].email.None?
  {
    if ps == [] then 0
    else if ps[0].email.None? then 0
    else
      var k := 1 + FirstMissing(ps[1..]);
      assert HasEmails(ps[..k]) by {
        forall i | 0 <= i < k ensures ps[..k][i].email.Some? {
          if i > 0 {
            assert ps[..k][i] == ps[1..][..k - 1][i - 1];
          }
        }
      }
      k
  }

  /** The account requested for a profile. */
  function Request(p: Profile): CreateRequest
    requires p.email.Some?
  {
    CreateRequest(Lower(p.email.value), TempPassword, true, p.nombre, p.rol)
  }

  /** Whether the loop creates an account for the profile: its email is not already there. */
  predicate Missing(p: Profile, existing: seq<string>)
    requires p.email.Some?
  {
    Lower(p.email.value) !in existing
  }

  /** The creates the loop makes over `ps`, in order; `existing` never grows. */
  function Requests(ps: seq<Profile>, existing: seq<string>): seq<CreateRequest>
    requires HasEmails(ps)
  {
    if ps == [] then []
    else
      var last := ps[|ps| - 1];
      assert HasEmails(ps[..|ps| - 1]);
      Requests(ps[..|ps| - 1], existing) + (if Missing(last, existing) then [Request(last)] else [])
  }

  /** How many of those creates succeed, `outcomes[i]` being the answer for profile `i`. */
  function Synced(ps: seq<Profile>, existing: seq<string>, outcomes: seq<CreateOutcome>): (n: nat)
    requires HasEmails(ps) && |outcomes| >= |ps|
    ensures n <= |Requests(ps, existing)|
  {
    if ps == [] then 0
    else
      var last := ps[|ps| - 1];
      assert HasEmails(ps[..|ps| - 1]);
      Synced(ps[..|ps| - 1], existing, outcomes)
        + (if Missing(last, existing) && outcomes[|ps| - 1] == Created then 1 else 0)
  }

  /**
   * `syncUsersToAuth`. `profiles` and `users` are the two reads (absent on error, `users`
   * being the accounts' emails); `outcomes[i]` is what the create call for profile `i` would
   * return.
   */
  method SyncUsersToAuth(profiles: Option<seq<Profile>>, users: Option<seq<Option<string>>>,
                         outcomes: seq<CreateOutcome>)
    returns (report: SyncReport)
    requires profiles.Some? ==> |outcomes| == |profiles.value|
    ensures profiles.None? ==> report == ProfilesFailed
    ensures profiles.Some? && users.None? ==> report == UsersFailed
    ensures profiles.Some? && users.Some? && !AllEmails(users.value) ==> report == Crashed([])
    ensures profiles.Some? && users.Some? && AllEmails(users.value) ==>
      var ps, existing := profiles.value, LowerAll(users.value);
      var k := FirstMissing(ps);
      if k < |ps| then report == Crashed(Requests(ps[..k], existing))
      else report == Completed(Requests(ps, existing), Synced(ps, existing, outcomes),
                               |Requests(ps, existing)| - Synced(ps, existing, outcomes))
    ensures report.Completed? ==> report.synced + report.errors == |report.attempted|
  {
    if profiles.None? {
      return ProfilesFailed;
    }
    if users.None? {
      return UsersFailed;
    }
    if !AllEmails(users.value) {
      return Crashed([]);
    }
    var ps := profiles.value;
    var existing := LowerAll(users.value);
    var syncedCount, errorCount := 0, 0;
    var attempted: seq<CreateRequest> := [];
    var i := 0;
    while i < |ps|
      invariant 0 <= i <= |ps| && HasEmails(ps[..i])
      invariant attempted == Requests(ps[..i], existing)
      invariant syncedCount == Synced(ps[..i], existing, outcomes)
      invariant syncedCount + errorCount == |attempted|
    {
      if ps[i].email.None? {
        FirstMissingAt(ps, i);
        return Crashed(attempted);
      }
      PrefixStep(ps, i, existing, outcomes);
      var email := Lower(ps[i].email.value);
      if email !in existing {
        attempted := attempted + [Request(ps[i])];
        if outcomes[i] == Created {
          syncedCount := syncedCount + 1;
        } else {
          errorCount := errorCount + 1;
        }
      }
      i := i + 1;
    }
    assert ps[..|ps|] == ps;
    return Completed(attempted, syncedCount, errorCount);
  }

  // ------------------------------------------------------------ lemmas

  /** One more loop iteration: the prefix grows by profile `i`. */
  lemma PrefixStep(ps: seq<Profile>, i: nat, existing: seq<string>, outcomes: seq<CreateOutcome>)
    requires i < |ps| <= |outcomes| && HasEmails(ps[..i]) && ps[i].email.Some?
    ensures HasEmails(ps[..i + 1])
    ensures Requests(ps[..i + 1], existing)
      == Requests(ps[..i], existing) + (if Missing(ps[i], existing) then [Request(ps[i])] else [])
    ensures Synced(ps[..i + 1], existing, outcomes)
      == Synced(ps[..i], existing, outcomes) + (if Missing(ps[i], existing) && outcomes[i] == Created then 1 else 0)
  {
    assert ps[..i + 1][..i] == ps[..i] && ps[..i + 1][i] == ps[i];
  }

  /** The first profile without email, after profiles that all have one, is the one `FirstMissing` finds. */
  lemma {:induction false} FirstMissingAt(ps: seq<Profile>, i: nat)
    requires i < |ps| && HasEmails(ps[..i]) && ps[i].email.None?
    ensures FirstMissing(ps) == i
  {
    if i > 0 {
      assert ps[..i][0] == ps[0];
      var rest := ps[1..];
      var front := rest[..i - 1];
      assert HasEmails(front) by {
        forall j | 0 <= j < |front| ensures front[j].email.Some? {
          assert front[j] == ps[..i][j + 1];
        }
      }
      FirstMissingAt(rest, i - 1);
    }
  }

  /** The creates over a concatenation are those of each part, in order. */
  lemma {:induction false} RequestsConcat(a: seq<Profile>, b: seq<Profile>, existing: seq<string>)
    requires HasEmails(a) && HasEmails(b)
    ensures HasEmails(a + b)
    ensures Requests(a + b, existing) == Requests(a, existing) + Requests(b, existing)
  {
    assert HasEmails(a + b) by {
      forall i | 0 <= i < |a + b| ensures (a + b)[i].email.Some? {
        if i < |a| { assert (a + b)[i] == a[i]; } else { assert (a + b)[i] == b[i - |a|]; }
      }
    }
    if b == [] {
      assert a + b == a;
    } else {
      var b', x := b[..|b| - 1], b[|b| - 1];
      assert HasEmails(b');
      assert (a + b)[..|a + b| - 1] == a + b' && (a + b)[|a + b| - 1] == x;
      RequestsConcat(a, b', existing);
    }
  }

  /**
   * A create is made exactly for the profiles whose lower-cased email is not among the
   * existing ones: every request comes from such a profile, and every such profile gets one.
   */
  lemma {:induction false} RequestsAreMissingProfiles(ps: seq<Profile>, existing: seq<string>)
    requires HasEmails(ps)
    ensures forall r :: r in Requests(ps, existing) ==>
      r.email !in existing && exists j :: 0 <= j < |ps| && r == Request(ps[j])
    ensures forall j :: 0 <= j < |ps| && Missing(ps[j], existing) ==> Request(ps[j]) in Requests(ps, existing)
  {
    if ps != [] {
      var front := ps[..|ps| - 1];
      assert HasEmails(front);
      RequestsAreMissingProfiles(front, existing);
      assert forall j :: 0 <= j < |front| ==> front[j] == ps[j];
    }
  }

  /**
   * The existing list is not extended inside the loop: two profiles with the same email
   * (up to letter case) that is not already there both get a create, at two positions.
   */
  lemma DuplicatesBothAttempted(ps: seq<Profile>, existing: seq<string>, i: nat, j: nat)
    requires HasEmails(ps) && i < j < |ps|
    requires Lower(ps[i].email.value) == Lower(ps[j].email.value) && Missing(ps[i], existing)
    ensures var rs := Requests(ps, existing);
      exists a, b :: 0 <= a < b < |rs| && rs[a] == Request(ps[i]) && rs[b] == Request(ps[j])
  {
    var p1, mid, p3 := ps[..i], ps[i + 1..j], ps[j + 1..];
    var left := p1 + [ps[i]];
    var upto := left + mid;
    var withJ := upto + [ps[j]];
    assert ps == withJ + p3;
    assert HasEmails(p1) && HasEmails(mid) && HasEmails(p3);
    assert HasEmails([ps[i]]) && HasEmails([ps[j]]);
    RequestsConcat(p1, [ps[i]], existing);
    RequestsConcat(left, mid, existing);
    RequestsConcat(upto, [ps[j]], existing);
    RequestsConcat(withJ, p3, existing);
    SingleRequest(ps[i], existing);
    SingleRequest(ps[j], existing);
    var ra, rm, r3 := Requests(p1, existing), Requests(mid, existing), Requests(p3, existing);
    PickTwo(ra, Request(ps[i]), rm, Request(ps[j]), r3);
  }

  /** The two singled-out elements of `ra + [x] + rm + [y] + r3`, and where they sit. */
  lemma PickTwo(ra: seq<CreateRequest>, x: CreateRequest, rm: seq<CreateRequest>, y: CreateRequest, r3: seq<CreateRequest>)
    ensures var rs := ra + [x] + rm + [y] + r3;
      |ra| < |ra| + 1 + |rm| < |rs| && rs[|ra|] == x && rs[|ra| + 1 + |rm|] == y
  {
  }

  /** One profile gives one create when its email is missing, none otherwise. */
  lemma SingleRequest(p: Profile, existing: seq<string>)
    requires p.email.Some?
    ensures HasEmails([p])
    ensures Requests([p], existing) == if Missing(p, existing) then [Request(p)] else []
  {
    assert [p][..0] == [];
  }
}
