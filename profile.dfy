/** frontend/src/components/profile-page.tsx: the user-name form and the password-change
    form of the settings page. */
module Profile {
  import opened Wrappers

  /** The body of `PUT /profile/`. */
  datatype ProfileBody = ProfileBody(username: string, profilePhoto: string)

  /** The body of `PUT /profile/password`. */
  datatype PasswordBody = PasswordBody(password: string)

  const MismatchMessage := "Passwords do not match"
  const PasswordUpdatedMessage := "Password updated!"
  const ProfileUpdatedMessage := "Profile updated!"

  /** A profile save always sends an empty photo alongside the name being edited. */
  function ProfileBodyOf(username: string): (b: ProfileBody)
    ensures b.username == username && b.profilePhoto == ""
  {
    ProfileBody(username, "")
  }

  /** The outcome of one press of Change Password, given the two fields. */
  datatype PasswordAttempt = Disabled | Mismatch | Send(body: PasswordBody)

  /** What pressing Change Password does: nothing while a change is pending or the new
      password is empty (the button is disabled); the `mutationFn` then refuses
      differing fields before anything is sent; otherwise it sends the new password. */
  function PressChangePassword(pending: bool, password: string, confirm: string): (a: PasswordAttempt)
    ensures a == Disabled <==> pending || password == ""
    ensures a == Mismatch <==> !pending && password != "" && password != confirm
    ensures a.Send? ==> a.body.password == password && password == confirm && password != ""
  {
    if pending || password == "" then Disabled
    else if password != confirm then Mismatch
    else Send(PasswordBody(password))
  }

  /** A request that goes out carries the password typed twice, never an empty one. */
  lemma SentPasswordConfirmed(pending: bool, password: string, confirm: string)
    ensures PressChangePassword(pending, password, confirm).Send? <==>
              !pending && password != "" && password == confirm
  {
  }

  class ProfileForm {
    /** The user-name field. It starts empty, and stays empty until typed into: the
        look-up's `meta.onSuccess` is not a callback the query library calls. */
    var username: string
    var password: string
    var confirmPassword: string
    /** `updateProfileMutation.isPending` and `updatePasswordMutation.isPending`. */
    var profilePending: bool
    var passwordPending: bool
    /** Every `alert` shown so far. */
    var alerts: seq<string>

    /** Change Password is disabled iff a change is pending or the new password is empty. */
    predicate ChangePasswordDisabled()
      reads this
    {
      passwordPending || password == ""
    }

    constructor ()
      ensures username == "" && password == "" && confirmPassword == ""
      ensures !profilePending && !passwordPending && alerts == []
      ensures ChangePasswordDisabled()
    {
      username, password, confirmPassword := "", "", "";
      profilePending, passwordPending := false, false;
      alerts := [];
    }

    /** Save: disabled while a save is pending; otherwise sends the current name and an
        empty photo. */
    method SaveProfile() returns (sent: Option<ProfileBody>)
      modifies this`profilePending
      ensures sent.Some? <==> !old(profilePending)
      ensures sent.Some? ==> sent.value == ProfileBodyOf(username) && profilePending
      ensures sent.None? ==> profilePending
    {
      if profilePending {
        return None;
      }
      profilePending := true;
      sent := Some(ProfileBodyOf(username));
    }

    /** The profile save's `onSuccess` alerts; a failed save has no handler and shows
        nothing. */
    method ProfileSettled(ok: bool)
      modifies this`alerts, this`profilePending
      ensures alerts == if ok then old(alerts) + [ProfileUpdatedMessage] else old(alerts)
      ensures !profilePending
    {
      if ok {
        alerts := alerts + [ProfileUpdatedMessage];
      }
      profilePending := false;
    }

    /** Change Password: does nothing while disabled. A mismatch throws inside the
        mutation, so the request is never sent and the error's message is alerted.
        Otherwise the new password is sent. */
    method ChangePassword() returns (sent: Option<PasswordBody>)
      modifies this`alerts, this`passwordPending
      ensures old(PressChangePassword(passwordPending, password, confirmPassword)) == Disabled ==>
                sent.None? && alerts == old(alerts) && passwordPending == old(passwordPending)
      ensures old(PressChangePassword(passwordPending, password, confirmPassword)) == Mismatch ==>
                sent.None? && alerts == old(alerts) + [MismatchMessage] && !passwordPending
      ensures old(PressChangePassword(passwordPending, password, confirmPassword)).Send? ==>
                sent == Some(old(PressChangePassword(passwordPending, password, confirmPassword)).body)
                && alerts == old(alerts) && passwordPending
      ensures sent.Some? ==> sent.value.password == password == confirmPassword
    {
      var attempt := PressChangePassword(passwordPending, password, confirmPassword);
      match attempt
      case Disabled =>
        sent := None;
      case Mismatch =>
        alerts := alerts + [MismatchMessage];
        sent := None;
      case Send(body) =>
        passwordPending := true;
        sent := Some(body);
    }

    /** The password change's `onSuccess`: both fields are cleared, leaving the button
        disabled, and a confirmation is alerted. */
    method PasswordSucceeded()
      modifies this`password, this`confirmPassword, this`alerts, this`passwordPending
      ensures password == "" && confirmPassword == ""
      ensures alerts == old(alerts) + [PasswordUpdatedMessage]
      ensures !passwordPending && ChangePasswordDisabled()
    {
      password := "";
      confirmPassword := "";
      alerts := alerts + [PasswordUpdatedMessage];
      passwordPending := false;
    }

    /** The password change's `onError` for a failed request: the message is alerted
        and both fields keep what was typed. */
    method PasswordFailed(message: string)
      modifies this`alerts, this`passwordPending
      ensures alerts == old(alerts) + [message]
      ensures !passwordPending
    {
      alerts := alerts + [message];
      passwordPending := false;
    }
  }
}
