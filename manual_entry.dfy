/**
 * The hand-entry panel (ManualEntryView): a participant typed field by field
 * into `currentEntry`, checked by `validateEntry`, appended to the poll's list
 * with its phone reformatted, and removable from that list again.
 */
module ManualEntry {
  import opened Records
  import opened Text
  import opened PhoneNumbers

  const NameMessage: string := "이름은 1~10자리여야 합니다."
  const PhoneMessage: string := "전화번호는 -를 제외한 11자리 숫자여야 합니다."
  const AffiliationMessage: string := "소속은 1~20자리여야 합니다."
  const StudentIdMessage: string := "학번은 1~20자리여야 합니다."

  /** The number of digits a phone must have once its dashes are gone. */
  const PhoneLength: nat := 11

  /** A name of one to ten characters. */
  predicate NameOk(name: string) {
    1 <= |name| <= 10
  }

  /** Dashes dropped, exactly eleven characters, all of them digits. */
  predicate PhoneOk(phone: string) {
    var p := RemoveAll(phone, '-');
    p != [] && |p| == PhoneLength && AllDigits(p)
  }

  /** An optional field: empty, or one to twenty characters. */
  predicate OptionalFieldOk(text: string) {
    !(text != [] && (|text| < 1 || |text| > 20))
  }

  /** All four checks of `validateEntry` on one entry, absent fields read as "". */
  predicate EntryIsValid(entry: Record) {
    && NameOk(FieldOrEmpty(entry, NameKey))
    && PhoneOk(FieldOrEmpty(entry, PhoneKey))
    && OptionalFieldOk(FieldOrEmpty(entry, AffiliationKey))
    && OptionalFieldOk(FieldOrEmpty(entry, StudentIdKey))
  }

  /** The optional fields accept the empty text and anything up to twenty characters. */
  lemma OptionalFieldBounds(text: string)
    ensures OptionalFieldOk(text) <==> |text| <= 20
  {
  }

  /** Dropping a non-digit does not change the digits. */
  lemma {:induction false} DigitsIgnoreRemoval(s: string, c: char)
    requires !IsDigit(c)
    ensures Digits(RemoveAll(s, c)) == Digits(s)
  {
    if s != [] {
      DigitsIgnoreRemoval(s[1..], c);
      var head: string := if s[0] == c then [] else [s[0]];
      DigitsAppend(head, RemoveAll(s[1..], c));
      assert Digits(head) == if IsDigit(s[0]) then [s[0]] else [] by {
        if head != [] {
          assert head[1..] == [];
        }
      }
    }
  }

  /** An accepted phone's digits are the phone without its dashes. */
  lemma AcceptedPhoneDigits(phone: string)
    requires PhoneOk(phone)
    ensures Digits(phone) == RemoveAll(phone, '-')
    ensures |Digits(phone)| == PhoneLength
  {
    DigitsIgnoreRemoval(phone, '-');
    DigitsOfDigits(RemoveAll(phone, '-'));
  }

  /**
   * A phone that passes and starts with the trunk "0" is stored as "+82" and
   * ten digits, thirteen characters; any other accepted phone as its eleven
   * bare digits.
   */
  lemma AcceptedPhoneFormat(phone: string)
    requires PhoneOk(phone)
    ensures HasPrefix(Digits(phone), "0") ==>
              |FormatForManualEntry(phone)| == 13 && HasPrefix(FormatForManualEntry(phone), CountryCode)
    ensures !HasPrefix(Digits(phone), "0") ==> FormatForManualEntry(phone) == RemoveAll(phone, '-')
  {
    AcceptedPhoneDigits(phone);
  }

  /** Only dashes are dropped before the check: a space, a bracket or a "+" anywhere means refusal. */
  lemma OnlyDashesAreDropped(phone: string, i: nat)
    requires i < |phone| && phone[i] != '-' && !IsDigit(phone[i])
    ensures !PhoneOk(phone)
  {
    var p := RemoveAll(phone, '-');
    var c := phone[i];
    RemoveAllKeepsOthers(phone, '-', c);
    assert c in multiset(phone);
    assert c in multiset(p);
    assert c in p;
  }

  class ManualEntryForm {
    /** The poll's participants so far (bound to the creation screen's `manualEntries`). */
    var entries: seq<Record>
    var currentEntry: Record
    var nameError: Option<string>
    var phoneError: Option<string>
    var affiliationError: Option<string>
    var studentIdError: Option<string>

    constructor (initial: seq<Record>)
      ensures entries == initial && currentEntry == map[]
      ensures nameError == None && phoneError == None
      ensures affiliationError == None && studentIdError == None
    {
      entries := initial;
      currentEntry := map[];
      nameError := None;
      phoneError := None;
      affiliationError := None;
      studentIdError := None;
    }

    /** What a text field's binding does on every keystroke: the field's key gets the new text. */
    method EditField(key: string, text: string)
      modifies this
      ensures currentEntry == old(currentEntry)[key := text]
      ensures entries == old(entries)
      ensures nameError == old(nameError) && phoneError == old(phoneError)
      ensures affiliationError == old(affiliationError) && studentIdError == old(studentIdError)
    {
      currentEntry := currentEntry[key := text];
    }

    /**
     * `validateEntry`: all four checks run; each error is set exactly when its
     * own check fails; the answer is whether none failed.
     */
    method ValidateEntry() returns (isValid: bool)
      modifies this`nameError, this`phoneError, this`affiliationError, this`studentIdError
      ensures isValid <==> EntryIsValid(currentEntry)
      ensures nameError == if NameOk(FieldOrEmpty(currentEntry, NameKey)) then None else Some(NameMessage)
      ensures phoneError == if PhoneOk(FieldOrEmpty(currentEntry, PhoneKey)) then None else Some(PhoneMessage)
      ensures affiliationError ==
                if OptionalFieldOk(FieldOrEmpty(currentEntry, AffiliationKey)) then None else Some(AffiliationMessage)
      ensures studentIdError ==
                if OptionalFieldOk(FieldOrEmpty(currentEntry, StudentIdKey)) then None else Some(StudentIdMessage)
    {
      isValid := true;

      var name := FieldOrEmpty(currentEntry, NameKey);
      if name == [] || |name| > 10 {
        nameError := Some(NameMessage);
        isValid := false;
      } else {
        nameError := None;
      }
      assert isValid == NameOk(name);

      var phone := if PhoneKey in currentEntry then RemoveAll(currentEntry[PhoneKey], '-') else "";
      if phone == [] || |phone| != PhoneLength || !AllDigits(phone) {
        phoneError := Some(PhoneMessage);
        isValid := false;
      } else {
        phoneError := None;
      }
      assert phone == RemoveAll(FieldOrEmpty(currentEntry, PhoneKey), '-');
      assert isValid == (NameOk(name) && PhoneOk(FieldOrEmpty(currentEntry, PhoneKey)));

      var affiliation := FieldOrEmpty(currentEntry, AffiliationKey);
      if affiliation != [] && (|affiliation| < 1 || |affiliation| > 20) {
        affiliationError := Some(AffiliationMessage);
        isValid := false;
      } else {
        affiliationError := None;
      }
      assert isValid == (NameOk(name) && PhoneOk(FieldOrEmpty(currentEntry, PhoneKey)) && OptionalFieldOk(affiliation));

      var studentId := FieldOrEmpty(currentEntry, StudentIdKey);
      if studentId != [] && (|studentId| < 1 || |studentId| > 20) {
        studentIdError := Some(StudentIdMessage);
        isValid := false;
      } else {
        studentIdError := None;
      }
    }

    /**
     * The "항목 추가" button: a valid entry is appended with its phone
     * reformatted, the form is cleared and the errors dismissed; an invalid
     * one leaves the list and the form as they were, with each error shown
     * exactly when its own check failed.
     */
    method AddEntry()
      modifies this
      ensures EntryIsValid(old(currentEntry)) ==>
                && |entries| == |old(entries)| + 1
                && entries[..|old(entries)|] == old(entries)
                && entries[|old(entries)|].Keys == old(currentEntry).Keys
                && (forall k :: k in old(currentEntry) && k != PhoneKey ==>
                      entries[|old(entries)|][k] == old(currentEntry)[k])
                && (PhoneKey in old(currentEntry) ==>
                      entries[|old(entries)|][PhoneKey] == FormatForManualEntry(old(currentEntry)[PhoneKey]))
                && currentEntry == map[]
                && nameError == None && phoneError == None && affiliationError == None && studentIdError == None
      ensures !EntryIsValid(old(currentEntry)) ==> entries == old(entries) && currentEntry == old(currentEntry)
      ensures nameError == if NameOk(FieldOrEmpty(old(currentEntry), NameKey)) then None else Some(NameMessage)
      ensures phoneError == if PhoneOk(FieldOrEmpty(old(currentEntry), PhoneKey)) then None else Some(PhoneMessage)
      ensures affiliationError ==
                if OptionalFieldOk(FieldOrEmpty(old(currentEntry), AffiliationKey)) then None else Some(AffiliationMessage)
      ensures studentIdError ==
                if OptionalFieldOk(FieldOrEmpty(old(currentEntry), StudentIdKey)) then None else Some(StudentIdMessage)
    {
      var ok := ValidateEntry();
      if ok {
        if PhoneKey in currentEntry {
          currentEntry := currentEntry[PhoneKey := FormatForManualEntry(currentEntry[PhoneKey])];
        }
        entries := entries + [currentEntry];
        currentEntry := map[];
        nameError := None;
        phoneError := None;
        affiliationError := None;
        studentIdError := None;
      }
    }

    /** The delete button of row `index`: that row goes, the others keep their order. */
    method RemoveEntry(index: nat)
      requires index < |entries|
      modifies this
      ensures entries == old(entries[..index]) + old(entries[index + 1..])
      ensures |entries| == |old(entries)| - 1
      ensures currentEntry == old(currentEntry)
      ensures nameError == old(nameError) && phoneError == old(phoneError)
      ensures affiliationError == old(affiliationError) && studentIdError == old(studentIdError)
    {
      entries := entries[..index] + entries[index + 1..];
    }
  }

  /** Removing row `index` keeps every other row, in order: row j moves up by one past `index`. */
  lemma RemovalKeepsOrder(entries: seq<Record>, index: nat, j: nat)
    requires index < |entries| && j < |entries| - 1
    ensures (entries[..index] + entries[index + 1..])[j] == if j < index then entries[j] else entries[j + 1]
  {
  }
}
