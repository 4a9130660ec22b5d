/**
 * The voter's side (DoVoteView): the typed phone is normalised and looked up
 * among the poll's stored participants; on a match a verification code is
 * sent; the code is then checked, while a one-second countdown from 60 runs
 * and, when it expires, calls `deleteUser`, which deletes whichever account
 * is signed in at that moment, if there is one.
 *
 * The database read, the code delivery and the sign-in are answered from
 * outside; here their answers arrive as the arguments of the methods that
 * stand for the app's completion handlers.
 */
module DoVote {
  import opened Records
  import opened Text
  import opened PhoneNumbers

  // ---------------------------------------------------------------------------
  // What the database hands back for `polls/<code>`
  // ---------------------------------------------------------------------------

  /** A stored value: a string, or anything else (a number, a flag, a nested node). */
  datatype Field = Str(text: string) | NonString

  /** A child of the poll node: a dictionary of fields, or a value that is not one. */
  datatype Child = Dict(fields: map<string, Field>) | NotDict

  /** The poll node's value: a dictionary whose children come in some iteration order, or not a dictionary. */
  datatype PollValue = Dictionary(children: seq<Child>) | NotDictionary

  /** `snapshot.exists()` and `snapshot.value`. */
  datatype Snapshot = Missing | Present(value: PollValue)

  const FormatMessage: string := "데이터 형식이 잘못되었습니다."
  const MismatchMessage: string := "이름 또는 전화번호가 일치하지 않습니다."
  const UnknownCodeMessage: string := "해당 고유 코드가 존재하지 않습니다."
  const SendErrorPrefix: string := "인증 코드 전송 중 오류: "
  const CodeSentMessage: string := "인증 코드가 전송되었습니다."
  const NoVerificationMessage: string := "인증 코드 전송에 실패했습니다. 다시 시도해 주세요."
  const SignInFailedMessage: string := "인증에 실패했습니다. 다시 시도해 주세요."
  const ExpiredMessage: string := "코드 유효시간이 지났습니다."

  /** The number of seconds a sent code stays valid. */
  const CodeLifetime: int := 60

  /**
   * A child is the voter when it is a dictionary holding string values under
   * both the phone and the name key, equal to the normalised phone and the
   * typed name.
   */
  predicate IsVoter(child: Child, phone: string, name: string) {
    && child.Dict?
    && PhoneKey in child.fields && child.fields[PhoneKey].Str?
    && NameKey in child.fields && child.fields[NameKey].Str?
    && child.fields[PhoneKey].text == phone
    && child.fields[NameKey].text == name
  }

  /** A child without a phone or a name, such as the poll's "pollinfo", is nobody. */
  lemma ChildWithoutKeysIsNobody(child: Child, phone: string, name: string)
    requires child.Dict? && (PhoneKey !in child.fields || NameKey !in child.fields)
    ensures !IsVoter(child, phone, name)
  {
  }

  /**
   * The participant scan: the first child, in iteration order, that is the
   * voter; the scan stops there.
   */
  method FindParticipant(children: seq<Child>, phone: string, name: string) returns (found: bool, index: nat)
    ensures found <==> exists i :: 0 <= i < |children| && IsVoter(children[i], phone, name)
    ensures found ==> index < |children| && IsVoter(children[index], phone, name)
                      && forall j :: 0 <= j < index ==> !IsVoter(children[j], phone, name)
  {
    found := false;
    index := 0;
    for i := 0 to |children|
      invariant !found
      invariant forall j :: 0 <= j < i ==> !IsVoter(children[j], phone, name)
    {
      var child := children[i];
      if child.Dict? && PhoneKey in child.fields && child.fields[PhoneKey].Str?
         && NameKey in child.fields && child.fields[NameKey].Str?
      {
        var storedPhoneNumber := child.fields[PhoneKey].text;
        var storedName := child.fields[NameKey].text;
        if storedPhoneNumber == phone && storedName == name {
          found := true;
          index := i;
          break;
        }
      }
    }
  }

  /** Whether the lookup finds the voter among the answer's children. */
  predicate VoterListed(snapshot: Snapshot, phone: string, name: string) {
    && snapshot.Present? && snapshot.value.Dictionary?
    && exists i :: 0 <= i < |snapshot.value.children| && IsVoter(snapshot.value.children[i], phone, name)
  }

  /**
   * A participant saved from the phone text `typed` is found by a voter who
   * types the same text and name exactly when the digits do not start with "82".
   */
  lemma RegisteredVoterFound(typed: string, name: string)
    ensures IsVoter(Dict(map[PhoneKey := Str(FormatForRegistration(typed)), NameKey := Str(name)]),
                    FormatForVerification(typed), name)
            <==> !HasPrefix(Digits(typed), "82")
  {
    VerificationAgreesWithRegistration(typed);
    assert PhoneKey != NameKey;
  }

  // ---------------------------------------------------------------------------
  // The countdown
  // ---------------------------------------------------------------------------

  /**
   * The countdown's part of the screen: `timerCount`, `timerRunning`,
   * whether the `timer` subscription exists, and how often `deleteUser` has
   * been called.
   */
  datatype TimerState = TimerState(count: int, running: bool, active: bool, deleteCalls: nat)

  /** `startTimer`: any old subscription cancelled, a fresh one from 60. */
  function Started(t: TimerState): TimerState {
    TimerState(CodeLifetime, true, true, t.deleteCalls)
  }

  /**
   * One tick of the subscription: a running count above zero goes down by
   * one; at zero `deleteUser` is called once and the timer stopped.
   */
  function TickStep(t: TimerState): (u: TimerState)
    ensures t.running && t.count > 0 ==> u.count == t.count - 1 && u.running && u.active == t.active && u.deleteCalls == t.deleteCalls
    ensures !(t.running && t.count > 0) && t.count == 0 ==> !u.running && !u.active && u.deleteCalls == t.deleteCalls + 1 && u.count == 0
    ensures !(t.running && t.count > 0) && t.count != 0 ==> u == t
  {
    if t.running && t.count > 0 then t.(count := t.count - 1)
    else if t.count == 0 then TimerState(t.count, false, false, t.deleteCalls + 1)
    else t
  }

  /** `n` seconds after state `t`: ticks arrive only while the subscription exists. */
  function Ticks(t: TimerState, n: nat): TimerState
    decreases n
  {
    if n == 0 || !t.active then t else Ticks(TickStep(t), n - 1)
  }

  /** What the screen keeps true: the count stays within 0..60 and runs exactly while subscribed. */
  predicate TimerOk(t: TimerState) {
    0 <= t.count <= CodeLifetime && (t.running <==> t.active)
  }

  /** A tick keeps the count within 0..60: it never goes negative. */
  lemma TickKeepsTimerOk(t: TimerState)
    requires TimerOk(t)
    ensures TimerOk(TickStep(t))
    ensures TickStep(t).count <= t.count
  {
  }

  /** After `n` of its first sixty seconds a started countdown is running at 60 - n, nobody deleted. */
  lemma {:induction false} CountdownRuns(t: TimerState, n: nat)
    requires t.running && t.active && 0 <= t.count && n <= t.count
    ensures Ticks(t, n) == t.(count := t.count - n)
    decreases n
  {
    if n > 0 {
      CountdownRuns(TickStep(t), n - 1);
    }
  }

  /**
   * The 61st tick after `startTimer` is the one that expires the code: it
   * calls `deleteUser` exactly once and stops the timer, and nothing happens after.
   */
  lemma ExpiresOnTick61(t: TimerState, later: nat)
    ensures Ticks(Started(t), 60).count == 0 && Ticks(Started(t), 60).active
    ensures Ticks(Started(t), 60).deleteCalls == t.deleteCalls
    ensures Ticks(Started(t), 61) == TimerState(0, false, false, t.deleteCalls + 1)
    ensures Ticks(Started(t), 61 + later) == Ticks(Started(t), 61)
  {
    CountdownRuns(Started(t), 60);
    var zero := Ticks(Started(t), 60);
    assert Ticks(Started(t), 61) == Ticks(zero, 1) by {
      TicksSplit(Started(t), 60, 1);
    }
    assert Ticks(zero, 1) == Ticks(TickStep(zero), 0);
    TicksSplit(Started(t), 61, later);
  }

  /**
   * Signing in does not touch the countdown, so a voter who has signed in
   * while it runs is still deleted: `count + 1` ticks after any live point
   * of the countdown `deleteUser` has been called exactly once more and the
   * timer is stopped; that call deletes the account then signed in, which
   * `Tick` returns.
   */
  lemma {:induction false} SignedInVoterStillDeleted(t: TimerState)
    requires TimerOk(t) && t.active
    ensures Ticks(t, t.count) == t.(count := 0)
    ensures Ticks(t, t.count + 1) == TimerState(0, false, false, t.deleteCalls + 1)
  {
    CountdownRuns(t, t.count);
    TicksSplit(t, t.count, 1);
    var zero := Ticks(t, t.count);
    assert Ticks(zero, 1) == Ticks(TickStep(zero), 0);
  }

  /** Ticking `m` then `n` seconds is ticking `m + n`. */
  lemma {:induction false} TicksSplit(t: TimerState, m: nat, n: nat)
    ensures Ticks(t, m + n) == Ticks(Ticks(t, m), n)
    decreases m
  {
    if m > 0 && t.active {
      TicksSplit(TickStep(t), m - 1, n);
    }
  }

  // ---------------------------------------------------------------------------
  // The screen
  // ---------------------------------------------------------------------------

  /** How `verifyPhoneNumber` answered: an error with its description, or a verification id (possibly nil). */
  datatype SendOutcome = SendFailed(description: string) | SendSucceeded(verificationId: Option<string>)

  /** The credential a sign-in is attempted with. */
  datatype Credential = Credential(verificationId: string, code: string)

  /**
   * A lookup in flight: the poll code whose node is read, and the phone as it
   * was normalised when the lookup was made; the answer is matched against it.
   */
  datatype Lookup = Lookup(pollCode: string, formattedNumber: string)

  /** The identity of the account `Auth.auth().currentUser` stands for. */
  type Uid = string

  class VerificationSession {
    var phoneNumber: string
    var name: string
    var uniqueCode: string
    var verificationID: string
    var verificationCode: string
    var isCodeSent: bool
    var alertMessage: string
    var showAlert: bool
    var timerCount: int
    var timerRunning: bool
    /** Whether `timer` holds a subscription (is not nil). */
    var timerActive: bool
    var navigateToPollDetail: bool
    /** How many times `deleteUser` has been called. */
    var deleteUserCalls: nat

    function Timer(): TimerState
      reads this
    {
      TimerState(timerCount, timerRunning, timerActive, deleteUserCalls)
    }

    predicate Valid()
      reads this
    {
      TimerOk(Timer())
    }

    constructor ()
      ensures Valid()
      ensures phoneNumber == [] && name == [] && uniqueCode == [] && verificationID == [] && verificationCode == []
      ensures !isCodeSent && alertMessage == [] && !showAlert && !navigateToPollDetail
      ensures Timer() == TimerState(CodeLifetime, false, false, 0)
    {
      phoneNumber := [];
      name := [];
      uniqueCode := [];
      verificationID := [];
      verificationCode := [];
      isCodeSent := false;
      alertMessage := [];
      showAlert := false;
      timerCount := CodeLifetime;
      timerRunning := false;
      timerActive := false;
      navigateToPollDetail := false;
      deleteUserCalls := 0;
    }

    /**
     * `sendVerificationCode`, up to the database read: the phone is normalised
     * now, and the node of the poll code typed now is requested.  Nothing on
     * the screen changes until the answer arrives.
     */
    method SendVerificationCode() returns (lookup: Lookup)
      ensures lookup.pollCode == uniqueCode
      ensures lookup.formattedNumber == FormatForVerification(phoneNumber)
      ensures HasPrefix(lookup.formattedNumber, CountryCode) && AllDigits(lookup.formattedNumber[1..])
    {
      lookup := Lookup(uniqueCode, FormatForVerification(phoneNumber));
    }

    /**
     * The answer to `lookup`: a code is requested for the number normalised
     * when the lookup was made exactly when the voter is listed under it and
     * the name typed by now; the alert says why when not; when the answer is
     * not a dictionary the format alert is raised and then overwritten by the
     * mismatch alert.
     */
    method ParticipantsArrived(lookup: Lookup, snapshot: Snapshot) returns (sendTo: Option<string>)
      modifies this`alertMessage, this`showAlert
      ensures sendTo == if VoterListed(snapshot, lookup.formattedNumber, name)
                        then Some(lookup.formattedNumber) else None
      ensures snapshot.Missing? ==> alertMessage == UnknownCodeMessage && showAlert
      ensures snapshot.Present? && sendTo.None? ==> alertMessage == MismatchMessage && showAlert
      ensures sendTo.Some? ==> alertMessage == old(alertMessage) && showAlert == old(showAlert)
    {
      var formattedNumber := lookup.formattedNumber;
      sendTo := None;
      if snapshot.Present? {
        var isUserFound := false;
        if snapshot.value.Dictionary? {
          var index;
          isUserFound, index := FindParticipant(snapshot.value.children, formattedNumber, name);
          if isUserFound {
            sendTo := Some(formattedNumber);
          }
        } else {
          alertMessage := FormatMessage;
          showAlert := true;
        }
        if !isUserFound {
          alertMessage := MismatchMessage;
          showAlert := true;
        }
      } else {
        alertMessage := UnknownCodeMessage;
        showAlert := true;
      }
    }

    /**
     * The completion of `sendCode`: on an error only the alert changes; on
     * success the id is kept (or "" for nil), the code counts as sent and the
     * countdown starts afresh.
     */
    method SendCodeCompleted(outcome: SendOutcome)
      requires Valid()
      modifies this
      ensures Valid()
      ensures outcome.SendFailed? ==>
                && alertMessage == SendErrorPrefix + outcome.description && showAlert
                && verificationID == old(verificationID) && isCodeSent == old(isCodeSent)
                && Timer() == old(Timer())
      ensures outcome.SendSucceeded? ==>
                && verificationID == outcome.verificationId.GetOr("") && isCodeSent
                && alertMessage == CodeSentMessage && showAlert
                && Timer() == Started(old(Timer()))
      ensures phoneNumber == old(phoneNumber) && name == old(name) && uniqueCode == old(uniqueCode)
      ensures verificationCode == old(verificationCode) && navigateToPollDetail == old(navigateToPollDetail)
    {
      if outcome.SendFailed? {
        alertMessage := SendErrorPrefix + outcome.description;
        showAlert := true;
        return;
      }
      verificationID := outcome.verificationId.GetOr("");
      isCodeSent := true;
      alertMessage := CodeSentMessage;
      showAlert := true;
      StartTimer();
    }

    /**
     * `verifyCode`: with no verification id the failure alert is raised and no
     * sign-in is attempted; otherwise a sign-in is attempted with the id and
     * the typed code, and nothing else changes yet.
     */
    method VerifyCode() returns (attempt: Option<Credential>)
      modifies this`alertMessage, this`showAlert
      ensures verificationID == [] ==> attempt == None && alertMessage == NoVerificationMessage && showAlert
      ensures verificationID != [] ==> attempt == Some(Credential(verificationID, verificationCode))
                                       && alertMessage == old(alertMessage) && showAlert == old(showAlert)
    {
      if verificationID == [] {
        alertMessage := NoVerificationMessage;
        showAlert := true;
        return None;
      }
      attempt := Some(Credential(verificationID, verificationCode));
    }

    /** The completion of the sign-in: failure raises an alert, success opens the poll; the countdown is left alone. */
    method SignInCompleted(succeeded: bool)
      modifies this`alertMessage, this`showAlert, this`navigateToPollDetail
      ensures !succeeded ==> alertMessage == SignInFailedMessage && showAlert
                             && navigateToPollDetail == old(navigateToPollDetail)
      ensures succeeded ==> navigateToPollDetail && alertMessage == old(alertMessage) && showAlert == old(showAlert)
      ensures Timer() == old(Timer())
    {
      if !succeeded {
        alertMessage := SignInFailedMessage;
        showAlert := true;
        return;
      }
      navigateToPollDetail := true;
    }

    /** `startTimer`: stop any running countdown, then count from 60 with a new subscription. */
    method StartTimer()
      requires Valid()
      modifies this`timerCount, this`timerRunning, this`timerActive
      ensures Valid()
      ensures Timer() == Started(old(Timer()))
    {
      StopTimer();
      timerCount := CodeLifetime;
      timerRunning := true;
      timerActive := true;
    }

    /** `stopTimer`: not running, subscription cancelled. */
    method StopTimer()
      modifies this`timerRunning, this`timerActive
      ensures Timer() == old(Timer()).(running := false, active := false)
    {
      timerRunning := false;
      timerActive := false;
    }

    /**
     * `deleteUser`, given the account signed in at the call (`currentUser`):
     * the call is counted, and a deletion is requested for that account when
     * there is one and for nobody when there is none.
     */
    method DeleteUser(currentUser: Option<Uid>) returns (deleted: Option<Uid>)
      modifies this`deleteUserCalls
      ensures deleteUserCalls == old(deleteUserCalls) + 1
      ensures deleted == currentUser
    {
      deleted := None;
      if currentUser.Some? {
        deleted := Some(currentUser.value);
      }
      deleteUserCalls := deleteUserCalls + 1;
    }

    /**
     * One second of the subscription, with `currentUser` the account signed
     * in at that second: the timer moves as `TickStep` says; at expiry the
     * expiry alert is raised and that account, if any, is the one deleted;
     * before expiry nobody is.
     */
    method Tick(currentUser: Option<Uid>) returns (deleted: Option<Uid>)
      requires Valid() && timerActive
      modifies this`timerCount, this`timerRunning, this`timerActive, this`deleteUserCalls, this`alertMessage, this`showAlert
      ensures Valid()
      ensures Timer() == TickStep(old(Timer()))
      ensures old(timerCount) == 0 ==> alertMessage == ExpiredMessage && showAlert && deleted == currentUser
      ensures old(timerCount) != 0 ==> alertMessage == old(alertMessage) && showAlert == old(showAlert) && deleted == None
    {
      deleted := None;
      if timerRunning && timerCount > 0 {
        timerCount := timerCount - 1;
      } else if timerCount == 0 {
        showAlert := true;
        alertMessage := ExpiredMessage;
        deleted := DeleteUser(currentUser);
        StopTimer();
      }
    }
  }
}
