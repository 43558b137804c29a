/** The login page: the submit handler's validation and loading transition,
    and the delayed completion that picks the admin or the user branch and
    navigates.  The delay is an explicit completion event; the completion
    uses the email captured when the submission was made, so the scheduled
    completions are kept as a queue of captured emails (equal delays fire in
    the order they were set).  Navigation is recorded as the list of
    destinations passed to the router. */
module Login {

  /** True when t occurs in s at its start. */
  predicate StartsWith(s: string, t: string)
  {
    |t| <= |s| && s[..|t|] == t
  }

  /** String containment, searched position by position as `includes` does. */
  predicate Includes(s: string, t: string)
    decreases |s|
  {
    StartsWith(s, t) || (|s| > 0 && Includes(s[1..], t))
  }

  /** t occurs in s at offset i. */
  predicate OccursAt(s: string, t: string, i: int)
  {
    0 <= i <= |s| - |t| && s[i..i + |t|] == t
  }

  /** Containment holds exactly when t occurs at some offset of s. */
  lemma {:induction false} IncludesAtOffset(s: string, t: string)
    ensures Includes(s, t) <==> exists i :: OccursAt(s, t, i)
    decreases |s|
  {
    if StartsWith(s, t) {
      assert OccursAt(s, t, 0);
    } else if |s| > 0 {
      IncludesAtOffset(s[1..], t);
      if Includes(s[1..], t) {
        var i :| OccursAt(s[1..], t, i);
        assert s[1..][i..i + |t|] == s[i + 1..i + 1 + |t|];
        assert OccursAt(s, t, i + 1);
      }
      if exists i :: OccursAt(s, t, i) {
        var i :| OccursAt(s, t, i);
        assert i != 0;
        assert s[1..][i - 1..i - 1 + |t|] == s[i..i + |t|];
        assert OccursAt(s[1..], t, i - 1);
      }
    }
  }

  /** The demo's notion of an administrator: the email contains "admin". */
  predicate IsAdmin(email: string)
  {
    Includes(email, "admin")
  }

  /** An email is an admin's whenever "admin" appears in it, wherever it appears. */
  lemma AdminAnywhere(before: string, after: string)
    ensures IsAdmin(before + "admin" + after)
  {
    var e := before + "admin" + after;
    IncludesAtOffset(e, "admin");
    assert e[|before|..|before| + 5] == "admin";
    assert OccursAt(e, "admin", |before|);
  }

  /** The test is case-sensitive: without a lower-case 'a' there is no admin. */
  lemma NoLowerANoAdmin(email: string)
    requires forall k :: 0 <= k < |email| ==> email[k] != 'a'
    ensures !IsAdmin(email)
  {
    IncludesAtOffset(email, "admin");
    forall i | 0 <= i <= |email| - 5
      ensures !OccursAt(email, "admin", i)
    {
      assert email[i..i + 5][0] == email[i] != 'a';
    }
  }

  /** Where the completion sends the user, for the admin and the user branch. */
  function Route(admin: bool): (dest: string)
  {
    if admin then "/" else "/"
  }

  /** The two branches navigate to the same place: the admin test has no
      effect on the destination. */
  lemma RouteIgnoresAdmin(email: string)
    ensures Route(IsAdmin(email)) == "/"
    ensures forall other :: Route(IsAdmin(other)) == Route(IsAdmin(email))
  {
  }

  const MissingFields := "Please fill in all fields"

  class LoginPage {
    var email: string
    var password: string
    var error: string
    var isLoading: bool
    /** Emails captured by submissions whose completion has not fired yet. */
    var pending: seq<string>
    /** Every destination passed to the router, in order. */
    var navigated: seq<string>

    constructor ()
      ensures email == "" && password == "" && error == "" && !isLoading
      ensures pending == [] && navigated == []
    {
      email := "";
      password := "";
      error := "";
      isLoading := false;
      pending := [];
      navigated := [];
    }

    method SetEmail(value: string)
      modifies this`email
      ensures email == value
    {
      email := value;
    }

    method SetPassword(value: string)
      modifies this`password
      ensures password == value
    {
      password := value;
    }

    /** Submit: clear the error; with a field empty, report it and stop;
        otherwise enter loading and schedule a completion for this email. */
    method HandleSubmit()
      modifies this`error, this`isLoading, this`pending
      ensures email == "" || password == "" ==>
                error == MissingFields && isLoading == old(isLoading) && pending == old(pending)
      ensures email != "" && password != "" ==>
                error == "" && isLoading && pending == old(pending) + [email]
    {
      error := "";
      if email == "" || password == "" {
        error := MissingFields;
        return;
      }
      isLoading := true;
      pending := pending + [email];
    }

    /** The oldest scheduled completion fires: it takes the admin branch
        exactly when its captured email contains "admin", navigates home in
        either case and leaves loading.  `admin` reports the branch taken,
        in place of the log line. */
    method Complete() returns (admin: bool)
      requires pending != []
      modifies this`pending, this`navigated, this`isLoading
      ensures admin == IsAdmin(old(pending)[0])
      ensures pending == old(pending)[1..]
      ensures navigated == old(navigated) + ["/"]
      ensures !isLoading
    {
      var captured := pending[0];
      pending := pending[1..];
      admin := IsAdmin(captured);
      if admin {
        navigated := navigated + [Route(true)];
      } else {
        navigated := navigated + [Route(false)];
      }
      isLoading := false;
    }
  }

  /** An empty email blocks the submission at once: an error, no loading,
      nothing scheduled, nothing navigated. */
  method EmptyEmailScenario()
  {
    var page := new LoginPage();
    page.SetPassword("x");
    page.HandleSubmit();
    assert page.error == MissingFields;
    assert !page.isLoading && page.pending == [] && page.navigated == [];
  }

  /** A full submission followed by its completion ends at "/" with loading off. */
  method SuccessScenario()
  {
    var page := new LoginPage();
    page.SetEmail("my-admin@x.io");
    page.SetPassword("secret");
    page.HandleSubmit();
    assert page.isLoading && page.pending == ["my-admin@x.io"];
    var admin := page.Complete();
    AdminAnywhere("my-", "@x.io");
    assert "my-" + "admin" + "@x.io" == "my-admin@x.io";
    assert admin;
    assert page.navigated == ["/"] && !page.isLoading;
  }
}
