/** The account page of src/pages/Account.tsx: the profile and password forms, the checks a
    password change goes through, and the state the handlers change. */
module AccountPage {
  import opened Wrappers
  import opened Text

  datatype UserProfile = UserProfile(username: string, email: string, fullName: string, phone: string)

  datatype ProfileField = Username | Email | FullName | Phone

  datatype PasswordData = PasswordData(currentPassword: string, newPassword: string, confirmPassword: string)

  datatype PasswordField = CurrentPassword | NewPassword | ConfirmPassword

  /** All three password fields empty: the form's initial value and its value after a change. */
  const EmptyPasswords := PasswordData("", "", "")

  /** The fewest UTF-16 code units a new password may have. */
  const MinPasswordLength: nat := 6

  /** The profile the page starts from: the signed-in user's name (or '' when there is none or
      it is empty) and fixed contact details. */
  function InitialProfile(username: Option<string>): (p: UserProfile)
    ensures p.username == if username.Some? then username.value else ""
  {
    UserProfile(if username.Some? then username.value else "", "admin@greenocean.ly",
                "مدير النظام", "+218 21 123456")
  }

  function ProfileValue(p: UserProfile, field: ProfileField): string {
    match field
    case Username => p.username
    case Email => p.email
    case FullName => p.fullName
    case Phone => p.phone
  }

  function PasswordValue(p: PasswordData, field: PasswordField): string {
    match field
    case CurrentPassword => p.currentPassword
    case NewPassword => p.newPassword
    case ConfirmPassword => p.confirmPassword
  }

  /** The `handleProfileChange` updater: only the named field changes. */
  function WithProfileField(p: UserProfile, field: ProfileField, value: string): (r: UserProfile)
    ensures ProfileValue(r, field) == value
    ensures forall g :: g != field ==> ProfileValue(r, g) == ProfileValue(p, g)
  {
    match field
    case Username => p.(username := value)
    case Email => p.(email := value)
    case FullName => p.(fullName := value)
    case Phone => p.(phone := value)
  }

  /** The `handlePasswordChange` updater: only the named field changes. */
  function WithPasswordField(p: PasswordData, field: PasswordField, value: string): (r: PasswordData)
    ensures PasswordValue(r, field) == value
    ensures forall g :: g != field ==> PasswordValue(r, g) == PasswordValue(p, g)
  {
    match field
    case CurrentPassword => p.(currentPassword := value)
    case NewPassword => p.(newPassword := value)
    case ConfirmPassword => p.(confirmPassword := value)
  }

  /** How `handleChangePassword` ends: refused for a mismatch, refused as too short, or done. */
  datatype PasswordOutcome = Mismatch | TooShort | Changed

  /** The checks of `handleChangePassword`, in their order: the confirmation must match, then
      the new password must be at least six UTF-16 code units long. The current password is
      not checked. */
  function CheckPasswordChange(p: PasswordData): (o: PasswordOutcome)
    ensures o == Changed <==> p.newPassword == p.confirmPassword && Utf16Length(p.newPassword) >= MinPasswordLength
    ensures p.newPassword != p.confirmPassword ==> o == Mismatch
    ensures o == TooShort <==> p.newPassword == p.confirmPassword && Utf16Length(p.newPassword) < MinPasswordLength
  {
    if p.newPassword != p.confirmPassword then Mismatch
    else if Utf16Length(p.newPassword) < MinPasswordLength then TooShort
    else Changed
  }

  /** The mismatch check comes first: a short new password that differs from its confirmation
      is reported as a mismatch, and a password of six characters or more is never too short. */
  lemma MismatchReportedFirst(current: string, newPassword: string, confirm: string)
    requires newPassword != confirm
    ensures CheckPasswordChange(PasswordData(current, newPassword, confirm)) == Mismatch
    ensures |newPassword| >= MinPasswordLength ==>
              CheckPasswordChange(PasswordData(current, newPassword, newPassword)) == Changed
  {
  }

  /** The page's component state. */
  class AccountForm {
    var localProfile: UserProfile
    var passwordData: PasswordData
    var isSubmitting: bool

    constructor (username: Option<string>)
      ensures localProfile == InitialProfile(username) && passwordData == EmptyPasswords && !isSubmitting
    {
      localProfile, passwordData, isSubmitting := InitialProfile(username), EmptyPasswords, false;
    }

    /** The change-password button is disabled while submitting or while any of the three
        fields is empty. */
    function ChangeDisabled(): (disabled: bool)
      reads this
      ensures disabled <==> isSubmitting || exists f :: PasswordValue(passwordData, f) == ""
    {
      assert PasswordValue(passwordData, CurrentPassword) == passwordData.currentPassword;
      assert PasswordValue(passwordData, NewPassword) == passwordData.newPassword;
      assert PasswordValue(passwordData, ConfirmPassword) == passwordData.confirmPassword;
      isSubmitting || passwordData.currentPassword == "" || passwordData.newPassword == ""
        || passwordData.confirmPassword == ""
    }

    method HandleProfileChange(field: ProfileField, value: string)
      modifies this`localProfile
      ensures localProfile == WithProfileField(old(localProfile), field, value)
    {
      localProfile := WithProfileField(localProfile, field, value);
    }

    method HandlePasswordChange(field: PasswordField, value: string)
      modifies this`passwordData
      ensures passwordData == WithPasswordField(old(passwordData), field, value)
    {
      passwordData := WithPasswordField(passwordData, field, value);
    }

    /** `handleSaveProfile`: a submission that ends with the profile as it was and nothing
        running. */
    method HandleSaveProfile()
      modifies this`isSubmitting
      ensures !isSubmitting
    {
      isSubmitting := true;
      isSubmitting := false;
    }

    /** `handleChangePassword`: a refused change leaves every field and the submitting flag as
        they were; an accepted one empties the three password fields and ends with nothing
        running. The profile is never touched. */
    method HandleChangePassword() returns (outcome: PasswordOutcome)
      modifies this`passwordData, this`isSubmitting
      ensures outcome == CheckPasswordChange(old(passwordData))
      ensures outcome != Changed ==> passwordData == old(passwordData) && isSubmitting == old(isSubmitting)
      ensures outcome == Changed ==> passwordData == EmptyPasswords && !isSubmitting
    {
      if passwordData.newPassword != passwordData.confirmPassword {
        return Mismatch;
      }
      if Utf16Length(passwordData.newPassword) < MinPasswordLength {
        return TooShort;
      }
      isSubmitting := true;
      passwordData := EmptyPasswords;
      isSubmitting := false;
      outcome := Changed;
    }
  }
}
