/**
 * The app's main tab bar: the unread badges of the chat and contact tabs,
 * and the login screen it presents, with the rules that turn a tap on the
 * login button into a login request.
 *
 * The account service, the progress HUD and the user defaults are reduced
 * to what the tab controller records of them: the requests it sends, the
 * messages it shows and the values it stores. Their replies arrive as
 * parameters.
 */
module MainTab {
  import opened Opt
  import opened Decimal

  // ---------------------------------------------------------------- badges

  /** The chat tab's badge: none for no unread messages, the count up to 99, "99+" beyond. */
  function ChatBadge(unread: int): (badge: Option<string>)
    ensures badge.None? <==> unread == 0
    ensures unread > 99 <==> badge == Some("99+")
  {
    if unread == 0 then None
    else if unread > 99 then Some("99+")
    else
      var s := IntToString(unread);
      assert |s| >= 3 ==> IsDigit(s[2]);
      Some(s)
  }

  /** The contact tab's badge: none for no requests, otherwise the count, uncapped. */
  function ContactBadge(unread: int): (badge: Option<string>)
    ensures badge.None? <==> unread == 0
  {
    if unread == 0 then None else Some(IntToString(unread))
  }

  /** A positive count shows as its own digits: at most two on the chat tab, any number on the contact tab. */
  lemma BadgesShowCount(unread: nat)
    requires unread > 0
    ensures unread <= 99 ==>
      ChatBadge(unread).Some? && AllDigits(ChatBadge(unread).value) &&
      DecimalValue(ChatBadge(unread).value) == unread && |ChatBadge(unread).value| <= 2
    ensures ContactBadge(unread).Some? && AllDigits(ContactBadge(unread).value)
    ensures DecimalValue(ContactBadge(unread).value) == unread
  {
    NatToStringValue(unread);
  }

  /** The two badges agree up to 99 and part ways above it, where only the contact badge keeps counting. */
  lemma BadgesAgreeUpTo99(unread: int)
    ensures unread <= 99 ==> ChatBadge(unread) == ContactBadge(unread)
    ensures unread > 99 ==> ChatBadge(unread) != ContactBadge(unread)
  {
    if unread > 99 {
      NatToStringValue(unread);
      assert |ContactBadge(unread).value| >= 3;
    }
  }

  // ----------------------------------------------------------------- login

  datatype LoginType = Phone | Account | Email

  /** What the login screen holds when its button is tapped. */
  datatype LoginForm = LoginForm(
    loginType: LoginType,
    phone: Option<string>,
    password: Option<string>,
    verificationCode: Option<string>,
    areaCode: string)

  /** The arguments of `loginDemo`. */
  datatype LoginRequest = LoginRequest(
    phone: Option<string>,
    account: Option<string>,
    email: Option<string>,
    psw: Option<string>,
    verificationCode: Option<string>,
    areaCode: string)

  /** What a tap on the login button does. */
  datatype TapOutcome =
    | Ignored
    | FormatError
    | Submit(request: LoginRequest, clearConversation: bool)

  const WRONG_PASSWORD_FORMAT: string := "wrongPasswordFormat"

  predicate NonEmpty(s: Option<string>) {
    s.Some? && |s.value| > 0
  }

  /**
   * The login button's handler: nothing without a (live) screen and a
   * non-empty account field; an error unless a password or a code is
   * filled in; otherwise a request naming the account in the field its
   * login type selects, with the password left out whenever a code is
   * present, and the conversation list cleared when the phone account
   * differs from the one logged in before.
   */
  function LoginTap(form: Option<LoginForm>, preAccount: Option<string>): (outcome: TapOutcome)
    ensures outcome.Ignored? <==> form.None? || !NonEmpty(form.value.phone)
    ensures outcome.FormatError? <==>
      form.Some? && NonEmpty(form.value.phone) &&
      !NonEmpty(form.value.password) && !NonEmpty(form.value.verificationCode)
  {
    match form
    case None => Ignored
    case Some(f) =>
      if !NonEmpty(f.phone) then Ignored
      else if !(NonEmpty(f.password) || NonEmpty(f.verificationCode)) then FormatError
      else
        var curAccount := if f.loginType == Phone then f.phone else None;
        Submit(
          LoginRequest(
            if f.loginType == Phone then f.phone else None,
            if f.loginType == Account then f.phone else None,
            if f.loginType == Email then f.phone else None,
            if f.verificationCode.Some? then None else f.password,
            f.verificationCode,
            f.areaCode),
          curAccount != preAccount)
  }

  /**
   * A submitted request names the account in exactly one of its three
   * fields, the one the login type selects, and carries the code as typed.
   */
  lemma SubmitNamesOneAccount(form: LoginForm, preAccount: Option<string>)
    requires LoginTap(Some(form), preAccount).Submit?
    ensures var r := LoginTap(Some(form), preAccount).request;
      (r.phone.Some? <==> form.loginType == Phone) &&
      (r.account.Some? <==> form.loginType == Account) &&
      (r.email.Some? <==> form.loginType == Email) &&
      (r.phone.Some? || r.account.Some? || r.email.Some?) &&
      (r.phone.Some? ==> r.phone == form.phone) &&
      (r.account.Some? ==> r.account == form.phone) &&
      (r.email.Some? ==> r.email == form.phone) &&
      r.verificationCode == form.verificationCode && r.areaCode == form.areaCode
  {
  }

  /**
   * The password travels only without a code. A code field that is present
   * but empty still drops the password, so a form with a password and an
   * empty code submits neither.
   */
  lemma SubmitDropsPasswordWithCode(form: LoginForm, preAccount: Option<string>)
    requires LoginTap(Some(form), preAccount).Submit?
    ensures var r := LoginTap(Some(form), preAccount).request;
      (r.psw.Some? <==> form.verificationCode.None? && form.password.Some?) &&
      (r.psw.Some? ==> r.psw == form.password)
    ensures form.verificationCode == Some("") ==>
      var r := LoginTap(Some(form), preAccount).request;
      r.psw.None? && !NonEmpty(r.verificationCode)
  {
  }

  /** The conversation list is cleared exactly when the phone account changes; other login types always clear it unless nothing was logged in before. */
  lemma ClearsOnlyOnAccountChange(form: LoginForm, preAccount: Option<string>)
    requires LoginTap(Some(form), preAccount).Submit?
    ensures LoginTap(Some(form), preAccount).clearConversation <==>
      (if form.loginType == Phone then form.phone != preAccount else preAccount.Some?)
  {
  }

  class MainTabViewController {
    /** How many tabs `viewControllers` holds (none before the view loads). */
    var tabCount: nat
    var selectedIndex: nat
    var chatBadge: Option<string>
    var contactBadge: Option<string>
    /** How many times the login screen has been presented. */
    var loginPresentations: nat
    /** How many times the conversation list has been cleared. */
    var conversationClears: nat
    /** The messages the progress HUD has shown as errors, in order. */
    var hudErrors: seq<string>
    var hudAnimating: bool
    /** The login requests sent, in order. */
    var loginRequests: seq<LoginRequest>
    /** The login type stored after a successful login. */
    var savedLoginType: Option<LoginType>
    /** Whether user defaults hold the IM credentials. */
    var hasSavedCredentials: bool
    /** The `dismiss` flag of each `loginSuccess` call, in order. */
    var loginSuccesses: seq<bool>
    var tapTab: bool

    constructor (credentials: bool)
      ensures tabCount == 0 && selectedIndex == 0 && chatBadge.None? && contactBadge.None?
      ensures loginPresentations == 0 && conversationClears == 0 && hudErrors == [] && !hudAnimating
      ensures loginRequests == [] && savedLoginType.None? && hasSavedCredentials == credentials
      ensures loginSuccesses == [] && !tapTab
    {
      tabCount := 0;
      selectedIndex := 0;
      chatBadge := None;
      contactBadge := None;
      loginPresentations := 0;
      conversationClears := 0;
      hudErrors := [];
      hudAnimating := false;
      loginRequests := [];
      savedLoginType := None;
      hasSavedCredentials := credentials;
      loginSuccesses := [];
      tapTab := false;
    }

    /** `viewDidLoad`'s tab setup: chat, contacts, discovery and mine. */
    method LoadTabs()
      modifies this`tabCount
      ensures tabCount == 4
    {
      tabCount := 4;
    }

    /** The chat badge follows the total unread count. */
    method TotalUnreadChanged(unread: int)
      modifies this`chatBadge
      ensures chatBadge == ChatBadge(unread)
    {
      chatBadge := ChatBadge(unread);
    }

    /** The contact badge follows the unread friend and group requests. */
    method ContactUnreadChanged(unread: int)
      modifies this`contactBadge
      ensures contactBadge == ContactBadge(unread)
    {
      contactBadge := ContactBadge(unread);
    }

    method ClearConversation()
      modifies this`conversationClears
      ensures conversationClears == old(conversationClears) + 1
    {
      conversationClears := conversationClears + 1;
    }

    /** `presentLoginController`: back to the first tab with both badges cleared, under the login screen. */
    method PresentLoginController()
      modifies this`selectedIndex, this`chatBadge, this`contactBadge, this`loginPresentations
      ensures selectedIndex == 0
      ensures chatBadge == (if tabCount > 0 then None else old(chatBadge))
      ensures contactBadge == (if tabCount > 1 then None else old(contactBadge))
      ensures loginPresentations == old(loginPresentations) + 1
    {
      selectedIndex := 0;
      if tabCount > 0 {
        chatBadge := None;
      }
      if tabCount > 1 {
        contactBadge := None;
      }
      loginPresentations := loginPresentations + 1;
    }

    /** The login button's handler, as `LoginTap` decides it. */
    method LoginTapped(form: Option<LoginForm>, preAccount: Option<string>)
      modifies this`hudErrors, this`hudAnimating, this`conversationClears, this`loginRequests
      ensures var outcome := LoginTap(form, preAccount);
        match outcome
        case Ignored =>
          hudErrors == old(hudErrors) && hudAnimating == old(hudAnimating) &&
          conversationClears == old(conversationClears) && loginRequests == old(loginRequests)
        case FormatError =>
          hudErrors == old(hudErrors) + [WRONG_PASSWORD_FORMAT] && hudAnimating == old(hudAnimating) &&
          conversationClears == old(conversationClears) && loginRequests == old(loginRequests)
        case Submit(request, clear) =>
          hudErrors == old(hudErrors) && hudAnimating &&
          conversationClears == old(conversationClears) + (if clear then 1 else 0) &&
          loginRequests == old(loginRequests) + [request]
    {
      if form.None? || !NonEmpty(form.value.phone) {
        return;
      }
      var controller := form.value;
      var phone := controller.phone;
      var psw := controller.password;
      var code := controller.verificationCode;
      if !(NonEmpty(psw) || NonEmpty(code)) {
        hudErrors := hudErrors + [WRONG_PASSWORD_FORMAT];
        return;
      }
      hudAnimating := true;
      var curAccount := if controller.loginType == Phone then phone else None;
      if curAccount != preAccount {
        ClearConversation();
      }
      loginRequests := loginRequests + [LoginRequest(
        if controller.loginType == Phone then phone else None,
        if controller.loginType == Account then phone else None,
        if controller.loginType == Email then phone else None,
        if code.Some? then None else psw,
        code,
        controller.areaCode)];
    }

    /**
     * The reply to a login request: an error shows the server's message
     * (code -1) or the code's own text and presents the login screen again;
     * success stores the login type and completes the login.
     */
    method LoginReplied(loginType: LoginType, errCode: int, errMsg: Option<string>)
      modifies this`hudErrors, this`selectedIndex, this`chatBadge, this`contactBadge, this`loginPresentations
      modifies this`savedLoginType, this`loginSuccesses
      ensures errMsg.Some? ==>
        hudErrors == old(hudErrors) + [if errCode == -1 then errMsg.value else IntToString(errCode)] &&
        loginPresentations == old(loginPresentations) + 1 && selectedIndex == 0 &&
        savedLoginType == old(savedLoginType) && loginSuccesses == old(loginSuccesses)
      ensures errMsg.None? ==>
        hudErrors == old(hudErrors) && loginPresentations == old(loginPresentations) &&
        savedLoginType == Some(loginType) && loginSuccesses == old(loginSuccesses) + [true]
    {
      if errMsg.Some? {
        hudErrors := hudErrors + [if errCode == -1 then errMsg.value else IntToString(errCode)];
        PresentLoginController();
      } else {
        savedLoginType := Some(loginType);
        LoginSuccess(true);
      }
    }

    /** `loginSuccess`: the completion, dismissing the login screen when asked. */
    method LoginSuccess(dismiss: bool)
      modifies this`loginSuccesses
      ensures loginSuccesses == old(loginSuccesses) + [dismiss]
    {
      loginSuccesses := loginSuccesses + [dismiss];
    }

    /**
     * `loginExsitAccount`: saved credentials log straight into the IM
     * service, falling back to the login screen on an error; without them
     * the login screen shows.
     */
    method LoginExistingAccount(imErrMsg: Option<string>)
      modifies this`hudErrors, this`selectedIndex, this`chatBadge, this`contactBadge, this`loginPresentations
      modifies this`loginSuccesses
      ensures hasSavedCredentials && imErrMsg.None? ==>
        loginSuccesses == old(loginSuccesses) + [false] && loginPresentations == old(loginPresentations) &&
        hudErrors == old(hudErrors)
      ensures hasSavedCredentials && imErrMsg.Some? ==>
        hudErrors == old(hudErrors) + [imErrMsg.value] && loginPresentations == old(loginPresentations) + 1 &&
        loginSuccesses == old(loginSuccesses)
      ensures !hasSavedCredentials ==>
        hudErrors == old(hudErrors) && loginPresentations == old(loginPresentations) + 1 &&
        loginSuccesses == old(loginSuccesses)
    {
      if hasSavedCredentials {
        if imErrMsg.Some? {
          hudErrors := hudErrors + [imErrMsg.value];
          PresentLoginController();
        } else {
          LoginSuccess(false);
        }
      } else {
        PresentLoginController();
      }
    }

    /** `logout`: the saved credentials go and the login screen shows. */
    method Logout()
      modifies this`hasSavedCredentials, this`selectedIndex, this`chatBadge, this`contactBadge, this`loginPresentations
      ensures !hasSavedCredentials && selectedIndex == 0
      ensures loginPresentations == old(loginPresentations) + 1
      ensures tabCount > 1 ==> chatBadge.None? && contactBadge.None?
    {
      hasSavedCredentials := false;
      PresentLoginController();
    }

    /** `tabBarController(_:shouldSelect:)`: every tab may be selected; choosing the chat list marks it as tapped. */
    method ShouldSelect(isChatList: bool) returns (allow: bool)
      modifies this`tapTab
      ensures allow
      ensures tapTab == (isChatList || old(tapTab))
    {
      if isChatList {
        tapTab := true;
      }
      return true;
    }
  }
}
