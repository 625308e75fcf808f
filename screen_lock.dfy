/**
 * The screen-lock settings page: the password-lock and biometrics switches,
 * the rows shown for them, the persisted settings, and the unlock-failure
 * counter of the lock screen it presents.
 *
 * The persisted store (`LocalAuthManager`) is held as three fields of the
 * page; a password is set exactly when one is stored.
 */
module ScreenLock {
  import opened Opt

  datatype RowType = EnablePasswordLockRow | EnableBiometricsRow

  /** `RowType.allCases`, in declaration order. */
  const ALL_ROWS: seq<RowType> := [EnablePasswordLockRow, EnableBiometricsRow]

  /** The mode the lock screen is presented in. */
  datatype LockMode = NormalMode | NewMode | ChangeMode

  /** The rows `reloadEnablePasswordLock` shows for a switch position. */
  function RowsFor(enabled: bool): (rows: seq<RowType>)
    ensures 1 <= |rows| && rows[0] == EnablePasswordLockRow
    ensures EnableBiometricsRow in rows <==> enabled
  {
    if enabled then ALL_ROWS else [EnablePasswordLockRow]
  }

  class ScreenLockSettingViewController {
    var rowItems: seq<RowType>
    var enablePasswordLock: bool
    var enableBiometrics: bool
    var isBiometricsAvailable: bool
    var unlockFailureMaxTimes: int
    var hasOnFailure: bool
    /** How many times `onFailure` has been called. */
    var failureReports: nat
    /** The lock screens presented, in order. */
    var presented: seq<LockMode>
    // the persisted store
    var storedPassword: Option<string>
    var storedEnablePasswordLock: bool
    var storedEnableBiometrics: bool

    /** Either only the password-lock row or every row; biometrics are on only where available. */
    predicate Valid()
      reads this
    {
      (rowItems == [EnablePasswordLockRow] || rowItems == ALL_ROWS) &&
      (enableBiometrics ==> isBiometricsAvailable)
    }

    predicate HasSetPassword()
      reads this
    {
      storedPassword.Some?
    }

    constructor (password: Option<string>, passwordLock: bool, biometrics: bool)
      ensures Valid()
      ensures rowItems == [EnablePasswordLockRow] && !enablePasswordLock && !enableBiometrics
      ensures !isBiometricsAvailable && unlockFailureMaxTimes == 3 && !hasOnFailure && failureReports == 0
      ensures presented == []
      ensures storedPassword == password && storedEnablePasswordLock == passwordLock && storedEnableBiometrics == biometrics
    {
      rowItems := [EnablePasswordLockRow];
      enablePasswordLock := false;
      enableBiometrics := false;
      isBiometricsAvailable := false;
      unlockFailureMaxTimes := 3;
      hasOnFailure := false;
      failureReports := 0;
      presented := [];
      storedPassword := password;
      storedEnablePasswordLock := passwordLock;
      storedEnableBiometrics := biometrics;
    }

    /** `showScreenLock`: nothing without a logged-in user; otherwise the lock screen when the lock is on. */
    method ShowScreenLock(loggedIn: bool)
      modifies this`hasOnFailure, this`presented
      ensures !loggedIn ==> hasOnFailure == old(hasOnFailure) && presented == old(presented)
      ensures loggedIn ==> hasOnFailure
      ensures loggedIn ==> presented == old(presented) + (if storedEnablePasswordLock then [NormalMode] else [])
    {
      if !loggedIn {
        return;
      }
      hasOnFailure := true;
      if storedEnablePasswordLock {
        presented := presented + [NormalMode];
      }
    }

    /** `setupData`: the switches from the store; biometrics stay off where unavailable. */
    method SetupData(biometricsAvailable: bool)
      requires Valid()
      modifies this`isBiometricsAvailable, this`enablePasswordLock, this`enableBiometrics, this`rowItems
      ensures Valid()
      ensures isBiometricsAvailable == biometricsAvailable
      ensures enablePasswordLock == storedEnablePasswordLock
      ensures enableBiometrics == (biometricsAvailable && storedEnableBiometrics)
      ensures rowItems == (if storedEnablePasswordLock then ALL_ROWS else old(rowItems))
    {
      isBiometricsAvailable := biometricsAvailable;
      enablePasswordLock := storedEnablePasswordLock;
      enableBiometrics := if isBiometricsAvailable then storedEnableBiometrics else false;
      if enablePasswordLock {
        rowItems := ALL_ROWS;
      }
    }

    /**
     * `viewWillAppear`: with no password the lock is switched off, reduced
     * to one row and persisted as off; with one, every row shows when the
     * stored lock is on.
     */
    method ViewWillAppear()
      requires Valid()
      modifies this`enablePasswordLock, this`rowItems, this`storedEnablePasswordLock
      ensures Valid()
      ensures !HasSetPassword() ==>
        !enablePasswordLock && rowItems == [EnablePasswordLockRow] && !storedEnablePasswordLock
      ensures HasSetPassword() ==>
        enablePasswordLock == old(enablePasswordLock) && storedEnablePasswordLock == old(storedEnablePasswordLock) &&
        rowItems == (if storedEnablePasswordLock then ALL_ROWS else old(rowItems))
    {
      if !HasSetPassword() {
        enablePasswordLock := false;
        rowItems := [EnablePasswordLockRow];
        storedEnablePasswordLock := enablePasswordLock;
      } else if storedEnablePasswordLock {
        rowItems := ALL_ROWS;
      }
    }

    /** `reloadEnablePasswordLock`: rows and store follow the switch. */
    method ReloadEnablePasswordLock()
      requires Valid()
      modifies this`rowItems, this`storedEnablePasswordLock
      ensures Valid()
      ensures rowItems == RowsFor(enablePasswordLock) && storedEnablePasswordLock == enablePasswordLock
    {
      rowItems := RowsFor(enablePasswordLock);
      storedEnablePasswordLock := enablePasswordLock;
    }

    /** `setPasswordLock`: the lock screen, to change the password if one is set, else to make one. */
    method SetPasswordLock()
      modifies this`presented
      ensures presented == old(presented) + [if HasSetPassword() then ChangeMode else NewMode]
    {
      presented := presented + [if HasSetPassword() then ChangeMode else NewMode];
    }

    /**
     * `toggleEnablePasswordLock`: flips the switch; without a password it
     * only presents the set-password screen, with one it applies the switch
     * and forgets the password.
     */
    method ToggleEnablePasswordLock()
      requires Valid()
      modifies this`enablePasswordLock, this`presented, this`rowItems, this`storedEnablePasswordLock, this`storedPassword
      ensures Valid()
      ensures enablePasswordLock == !old(enablePasswordLock)
      ensures !old(HasSetPassword()) ==>
        presented == old(presented) + [NewMode] && rowItems == old(rowItems) &&
        storedEnablePasswordLock == old(storedEnablePasswordLock) && storedPassword == old(storedPassword)
      ensures old(HasSetPassword()) ==>
        presented == old(presented) && rowItems == RowsFor(enablePasswordLock) &&
        storedEnablePasswordLock == enablePasswordLock && storedPassword == None
    {
      enablePasswordLock := !enablePasswordLock;
      if !HasSetPassword() {
        SetPasswordLock();
      } else {
        ReloadEnablePasswordLock();
        storedPassword := None;
      }
    }

    /** `toggleEnableBiometrics`: flips and persists the switch, only where biometrics are available. */
    method ToggleEnableBiometrics()
      requires Valid()
      modifies this`enableBiometrics, this`storedEnableBiometrics
      ensures Valid()
      ensures !isBiometricsAvailable ==>
        enableBiometrics == old(enableBiometrics) && storedEnableBiometrics == old(storedEnableBiometrics)
      ensures isBiometricsAvailable ==>
        enableBiometrics == !old(enableBiometrics) && storedEnableBiometrics == enableBiometrics
    {
      if !isBiometricsAvailable {
        return;
      }
      enableBiometrics := !enableBiometrics;
      storedEnableBiometrics := enableBiometrics;
    }

    function NumberOfRows(): (n: nat)
      reads this
      requires Valid()
      ensures 1 <= n <= 2
      ensures n == 2 <==> EnableBiometricsRow in rowItems
    {
      |rowItems|
    }

    /** The switch position each row's cell shows. */
    function SwitchIsOn(row: nat): (on: bool)
      reads this
      requires row < |rowItems|
      ensures rowItems[row] == EnablePasswordLockRow ==> on == enablePasswordLock
      ensures rowItems[row] == EnableBiometricsRow ==> on == enableBiometrics
    {
      match rowItems[row]
      case EnablePasswordLockRow => enablePasswordLock
      case EnableBiometricsRow => enableBiometrics
    }

    /** The lock screen accepts a pincode equal to the stored password. */
    predicate PincodeMatches(pincode: string)
      reads this
    {
      storedPassword == Some(pincode)
    }

    /** A successful unlock applies the switch and stores the pincode as the password. */
    method UnlockWasSuccessful(pincode: string)
      requires Valid()
      modifies this`rowItems, this`storedEnablePasswordLock, this`storedPassword
      ensures Valid()
      ensures rowItems == RowsFor(enablePasswordLock) && storedEnablePasswordLock == enablePasswordLock
      ensures storedPassword == Some(pincode) && PincodeMatches(pincode)
    {
      ReloadEnablePasswordLock();
      storedPassword := Some(pincode);
    }

    /**
     * A failed unlock uses up one attempt; when none are left the password
     * is forgotten and `onFailure` is called.
     */
    method UnlockWasFailure()
      modifies this`unlockFailureMaxTimes, this`storedPassword, this`failureReports
      ensures unlockFailureMaxTimes == old(unlockFailureMaxTimes) - 1
      ensures unlockFailureMaxTimes <= 0 ==>
        storedPassword == None && failureReports == old(failureReports) + (if hasOnFailure then 1 else 0)
      ensures unlockFailureMaxTimes > 0 ==>
        storedPassword == old(storedPassword) && failureReports == old(failureReports)
    {
      unlockFailureMaxTimes := unlockFailureMaxTimes - 1;
      if unlockFailureMaxTimes <= 0 {
        storedPassword := None;
        if hasOnFailure {
          failureReports := failureReports + 1;
        }
      }
    }

    /** Cancelling the lock screen switches the lock off, with one row, persisted. */
    method UnlockWasCancelled()
      requires Valid()
      modifies this`enablePasswordLock, this`rowItems, this`storedEnablePasswordLock
      ensures Valid()
      ensures !enablePasswordLock && rowItems == [EnablePasswordLockRow] && !storedEnablePasswordLock
    {
      enablePasswordLock := false;
      ReloadEnablePasswordLock();
    }
  }
}
