/**
 * The poll-creation screen (CreatePollView): the gate between its two steps,
 * the five-character code a new poll is filed under, and what is written when
 * the poll is saved.
 */
module CreatePoll {
  import opened Records
  import opened Text
  import opened PhoneNumbers
  import CsvImport

  // ---------------------------------------------------------------------------
  // The input patterns `^[가-힣a-zA-Z\s]{2,20}$` and `^[가-힣a-zA-Z\s]{5,200}$`
  // ---------------------------------------------------------------------------

  /**
   * `\s` of the ICU regular expressions Foundation uses, the Unicode
   * White_Space set: U+0009 to U+000D, U+0085 and the separators of category Z.
   */
  predicate IsRegexSpace(c: char) {
    ('\t' <= c <= '\r') || c == '\U{0085}'
    || c == ' ' || c == '\U{00A0}' || c == '\U{1680}' || ('\U{2000}' <= c <= '\U{200A}')
    || c == '\U{202F}' || c == '\U{205F}' || c == '\U{3000}'
    || c == '\U{2028}' || c == '\U{2029}'
  }

  /** The bracket class `[가-힣a-zA-Z\s]`: a Hangul syllable, a Latin letter or white space. */
  predicate IsTextChar(c: char) {
    ('가' <= c <= '힣') || ('a' <= c <= 'z') || ('A' <= c <= 'Z') || IsRegexSpace(c)
  }

  predicate AllTextChars(s: string) {
    forall i :: 0 <= i < |s| ==> IsTextChar(s[i])
  }

  /** The characters at which ICU's `$` may also match just before the end. */
  predicate IsLineTerminator(c: char) {
    ('\U{000A}' <= c <= '\U{000D}') || c == '\U{0085}' || c == '\U{2028}' || c == '\U{2029}'
  }

  /**
   * Where `$` matches: at the end of the input, before a final line
   * terminator, or before a final "\r\n".
   */
  predicate EndAnchorAt(s: string, p: nat) {
    p == |s|
    || (p + 1 == |s| && IsLineTerminator(s[p]))
    || (p + 2 == |s| && s[p] == '\r' && s[p + 1] == '\n')
  }

  /** `s.range(of: "^[가-힣a-zA-Z\\s]{lo,hi}$", options: .regularExpression) != nil` */
  predicate MatchesTextPattern(s: string, lo: nat, hi: nat) {
    exists p: nat {:trigger EndAnchorAt(s, p)} ::
      lo <= p <= hi && p <= |s| && AllTextChars(s[..p]) && EndAnchorAt(s, p)
  }

  /** The pattern test without the quantifier: only three end points can satisfy `$`. */
  lemma MatchesTextPatternCases(s: string, lo: nat, hi: nat)
    ensures MatchesTextPattern(s, lo, hi) <==>
              || (lo <= |s| <= hi && AllTextChars(s))
              || (1 <= |s| && lo <= |s| - 1 <= hi && IsLineTerminator(s[|s| - 1]) && AllTextChars(s[..|s| - 1]))
              || (2 <= |s| && lo <= |s| - 2 <= hi && s[|s| - 2..] == "\r\n" && AllTextChars(s[..|s| - 2]))
  {
    if MatchesTextPattern(s, lo, hi) {
      var p: nat :| lo <= p <= hi && p <= |s| && AllTextChars(s[..p]) && EndAnchorAt(s, p);
      if p == |s| {
        assert s[..p] == s;
      } else if p + 2 == |s| && s[p] == '\r' && s[p + 1] == '\n' {
        assert s[|s| - 2..] == "\r\n";
      }
    }
    if lo <= |s| <= hi && AllTextChars(s) {
      assert s[..|s|] == s;
      assert EndAnchorAt(s, |s|);
    }
    if 1 <= |s| && lo <= |s| - 1 <= hi && IsLineTerminator(s[|s| - 1]) && AllTextChars(s[..|s| - 1]) {
      assert EndAnchorAt(s, |s| - 1);
    }
    if 2 <= |s| && lo <= |s| - 2 <= hi && s[|s| - 2..] == "\r\n" && AllTextChars(s[..|s| - 2]) {
      assert s[|s| - 2] == s[|s| - 2..][0] && s[|s| - 1] == s[|s| - 2..][1];
      assert EndAnchorAt(s, |s| - 2);
    }
  }

  /** A title of 2 to 20 letters and spaces passes the pattern. */
  lemma TitlePatternAcceptsLettersAndSpaces(title: string)
    requires 2 <= |title| <= 20 && AllTextChars(title)
    ensures MatchesTextPattern(title, 2, 20)
  {
    MatchesTextPatternCases(title, 2, 20);
  }

  /**
   * White space inside a title is any White_Space character, not only the
   * ones that ICU's documentation lists: a vertical tab or a NEXT LINE
   * between letters passes.
   */
  lemma TitleAcceptsEveryWhiteSpace(left: string, right: string, c: char)
    requires |left| + |right| + 1 <= 20 && 1 <= |left| + |right|
    requires AllTextChars(left) && AllTextChars(right) && (c == '\U{000B}' || c == '\U{0085}')
    ensures MatchesTextPattern(left + [c] + right, 2, 20)
  {
    var title := left + [c] + right;
    forall i | 0 <= i < |title| ensures IsTextChar(title[i]) {
      if i > |left| {
        assert title[i] == right[i - |left| - 1];
      }
    }
    TitlePatternAcceptsLettersAndSpaces(title);
  }

  /** No text shorter than the lower bound passes: in particular the empty text never does. */
  lemma PatternNeedsLowerBound(s: string, lo: nat, hi: nat)
    ensures |s| < lo ==> !MatchesTextPattern(s, lo, hi)
  {
    MatchesTextPatternCases(s, lo, hi);
  }

  /**
   * One character outside the class that is not a line terminator either,
   * a digit say, anywhere in the text makes it fail the pattern.
   */
  lemma PatternRejectsForeignChar(s: string, lo: nat, hi: nat, i: nat)
    requires i < |s| && !IsTextChar(s[i]) && !IsLineTerminator(s[i])
    ensures !MatchesTextPattern(s, lo, hi)
  {
    MatchesTextPatternCases(s, lo, hi);
    if i < |s| - 1 {
      assert s[..|s| - 1][i] == s[i];
    }
    if 2 <= |s| {
      assert s[|s| - 2..][0] == s[|s| - 2];
    }
    if i < |s| - 2 {
      assert s[..|s| - 2][i] == s[i];
    }
  }

  /** Digits are neither letters nor spaces, so a title or description with a digit is refused. */
  lemma PatternRejectsDigit(s: string, lo: nat, hi: nat, i: nat)
    requires i < |s| && '0' <= s[i] <= '9'
    ensures !MatchesTextPattern(s, lo, hi)
  {
    PatternRejectsForeignChar(s, lo, hi, i);
  }

  // ---------------------------------------------------------------------------
  // validateAndProceed
  // ---------------------------------------------------------------------------

  /** The four alerts the gate can raise, in the order it checks for them. */
  datatype ValidationError = EmptyTitle | BadTitle | BadDescription | EmptyDescription {
    function Message(): string {
      match this
      case EmptyTitle => "투표 제목을 입력해주세요."
      case BadTitle => "투표 제목은 2-20자의 한글 또는 영문이어야 합니다."
      case BadDescription => "투표 설명은 5-200자의 한글 또는 영문이어야 합니다."
      case EmptyDescription => "투표 설명을 입력해주세요."
    }
  }

  /**
   * The first check that fails, or None when the form may go on to step 2.
   * The description's emptiness is tested after its pattern, which already
   * rejects the empty text, so that alert is never raised.
   */
  function FirstValidationError(title: string, description: string): (e: Option<ValidationError>)
    ensures e == None <==> MatchesTextPattern(title, 2, 20) && MatchesTextPattern(description, 5, 200)
    ensures e == Some(EmptyTitle) <==> title == []
    ensures e == Some(BadTitle) <==> title != [] && !MatchesTextPattern(title, 2, 20)
    ensures e == Some(BadDescription) <==> MatchesTextPattern(title, 2, 20) && !MatchesTextPattern(description, 5, 200)
    ensures e != Some(EmptyDescription)
  {
    PatternNeedsLowerBound(title, 2, 20);
    PatternNeedsLowerBound(description, 5, 200);
    if title == [] then Some(EmptyTitle)
    else if !MatchesTextPattern(title, 2, 20) then Some(BadTitle)
    else if !MatchesTextPattern(description, 5, 200) then Some(BadDescription)
    else if description == [] then Some(EmptyDescription)
    else None
  }

  // ---------------------------------------------------------------------------
  // generateUniqueCode
  // ---------------------------------------------------------------------------

  const Lowercase: string := "abcdefghijklmnopqrstuvwxyz"
  const Uppercase: string := "ABCDEFGHIJKLMNOPQRSTUVWXYZ"
  const DecimalDigits: string := "0123456789"

  /** The 62 symbols a poll code is drawn from, in the app's order: "abc…zABC…Z01…9". */
  const CodeAlphabet: string := Lowercase + Uppercase + DecimalDigits

  /** The length of a poll code. */
  const CodeLength: nat := 5

  predicate IsCodeChar(c: char) {
    ('a' <= c <= 'z') || ('A' <= c <= 'Z') || ('0' <= c <= '9')
  }

  lemma LowercaseRun()
    ensures forall k :: 0 <= k < |Lowercase| ==> Lowercase[k] as int == 'a' as int + k
  {
  }

  lemma UppercaseRun()
    ensures forall k :: 0 <= k < |Uppercase| ==> Uppercase[k] as int == 'A' as int + k
  {
  }

  lemma DigitRun()
    ensures forall k :: 0 <= k < |DecimalDigits| ==> DecimalDigits[k] as int == '0' as int + k
  {
  }

  /** The position of a code symbol in the alphabet. */
  function CodeIndex(c: char): (i: nat)
    requires IsCodeChar(c)
    ensures i < |CodeAlphabet| && CodeAlphabet[i] == c
  {
    if 'a' <= c <= 'z' then
      LowercaseRun();
      assert Lowercase[c as int - 'a' as int] == c;
      c as int - 'a' as int
    else if 'A' <= c <= 'Z' then
      UppercaseRun();
      assert Uppercase[c as int - 'A' as int] == c;
      26 + (c as int - 'A' as int)
    else
      DigitRun();
      assert DecimalDigits[c as int - '0' as int] == c;
      52 + (c as int - '0' as int)
  }

  /** The alphabet holds exactly the letters and digits, 62 distinct symbols. */
  lemma CodeAlphabetIsLettersAndDigits()
    ensures |CodeAlphabet| == 62
    ensures forall i :: 0 <= i < |CodeAlphabet| ==> IsCodeChar(CodeAlphabet[i])
    ensures forall i, j :: 0 <= i < j < |CodeAlphabet| ==> CodeAlphabet[i] != CodeAlphabet[j]
  {
    LowercaseRun();
    UppercaseRun();
    DigitRun();
    forall i | 0 <= i < |CodeAlphabet| ensures IsCodeChar(CodeAlphabet[i]) && CodeIndex(CodeAlphabet[i]) == i {
      if i < 26 {
        assert CodeAlphabet[i] == Lowercase[i];
      } else if i < 52 {
        assert CodeAlphabet[i] == Uppercase[i - 26];
      } else {
        assert CodeAlphabet[i] == DecimalDigits[i - 52];
      }
    }
  }

  /**
   * `(0..<5).map { _ in letters.randomElement()! }`, with the five random
   * choices given as positions in the alphabet.
   */
  function UniqueCode(draws: seq<nat>): (code: string)
    requires |draws| == CodeLength
    requires forall i :: 0 <= i < |draws| ==> draws[i] < |CodeAlphabet|
    ensures |code| == CodeLength
    ensures forall i :: 0 <= i < |code| ==> IsCodeChar(code[i])
  {
    CodeAlphabetIsLettersAndDigits();
    seq(CodeLength, i requires 0 <= i < CodeLength => CodeAlphabet[draws[i]])
  }

  /** Every five-symbol code of letters and digits is what some draws produce. */
  lemma EveryCodeCanBeDrawn(code: string)
    requires |code| == CodeLength
    requires forall i :: 0 <= i < |code| ==> IsCodeChar(code[i])
    ensures exists draws :: |draws| == CodeLength && (forall i :: 0 <= i < |draws| ==> draws[i] < |CodeAlphabet|)
                            && UniqueCode(draws) == code
  {
    var draws := seq(CodeLength, i requires 0 <= i < CodeLength => CodeIndex(code[i]));
    assert UniqueCode(draws) == code;
  }

  // ---------------------------------------------------------------------------
  // The per-entry rewrite in saveDataToFirebase
  // ---------------------------------------------------------------------------

  /**
   * `saved` is `entry` as it is written: the same keys, the phone (if any)
   * normalised for registration, every other field as it was.
   */
  predicate SavedAs(entry: Record, saved: Record) {
    && saved.Keys == entry.Keys
    && (forall k :: k in entry && k != PhoneKey ==> saved[k] == entry[k])
    && (PhoneKey in entry ==> saved[PhoneKey] == FormatForRegistration(entry[PhoneKey]))
  }

  /** The loop over `dataToSave`: every entry rewritten, in order. */
  method PrepareEntriesForSave(entries: seq<Record>) returns (saved: seq<Record>)
    ensures |saved| == |entries|
    ensures forall i :: 0 <= i < |entries| ==> SavedAs(entries[i], saved[i])
  {
    saved := [];
    for i := 0 to |entries|
      invariant |saved| == i
      invariant forall j :: 0 <= j < i ==> SavedAs(entries[j], saved[j])
    {
      var entry := entries[i];
      var modified := entry;
      if PhoneKey in entry {
        modified := modified[PhoneKey := FormatForRegistration(entry[PhoneKey])];
      }
      saved := saved + [modified];
    }
  }

  /** What an entry is saved as is determined by the entry. */
  lemma SavedAsIsUnique(entry: Record, a: Record, b: Record)
    requires SavedAs(entry, a) && SavedAs(entry, b)
    ensures a == b
  {
    forall k | k in a ensures a[k] == b[k] {
      if k == PhoneKey {
        assert PhoneKey in entry;
      }
    }
  }

  /** Saving an already saved entry again changes nothing. */
  lemma SavedAsIdempotent(entry: Record, once: Record, twice: Record)
    requires SavedAs(entry, once) && SavedAs(once, twice)
    ensures twice == once
  {
    if PhoneKey in entry {
      RegistrationIdempotent(entry[PhoneKey]);
    }
    forall k | k in once ensures twice[k] == once[k] {
    }
  }

  /** An entry without a phone is saved exactly as it is. */
  lemma SavedWithoutPhone(entry: Record, saved: Record)
    requires PhoneKey !in entry && SavedAs(entry, saved)
    ensures saved == entry
  {
  }

  // ---------------------------------------------------------------------------
  // The screen's state
  // ---------------------------------------------------------------------------

  /** The "pollinfo" child written under the poll's code. */
  datatype PollInfo = PollInfo(pollTitle: string, pollDescription: string,
                               numberOfCandidates: Option<int>, isPublic: bool)

  class CreatePollForm {
    var step: int
    var pollTitle: string
    var pollDescription: string
    var isPublic: bool
    var isUsingExcel: bool
    var excelData: string
    var manualEntries: seq<Record>
    var uniqueCode: string
    var showAlert: bool
    var alertMessage: string
    var showValidationAlert: bool
    var numberOfCandidates: Option<int>

    /** The screen as it first appears. */
    constructor ()
      ensures step == 1 && pollTitle == [] && pollDescription == []
      ensures !isPublic && !isUsingExcel && excelData == [] && manualEntries == []
      ensures uniqueCode == [] && !showAlert && alertMessage == [] && !showValidationAlert
      ensures numberOfCandidates == None
    {
      step := 1;
      pollTitle := [];
      pollDescription := [];
      isPublic := false;
      isUsingExcel := false;
      excelData := [];
      manualEntries := [];
      uniqueCode := [];
      showAlert := false;
      alertMessage := [];
      showValidationAlert := false;
      numberOfCandidates := None;
    }

    /**
     * `validateAndProceed`: to step 2 when both texts pass, otherwise the first
     * failing check's alert is raised and the step stays.
     */
    method ValidateAndProceed()
      modifies this
      ensures match FirstValidationError(pollTitle, pollDescription)
              case None => step == 2 && alertMessage == old(alertMessage)
                           && showValidationAlert == old(showValidationAlert)
              case Some(e) => step == old(step) && alertMessage == e.Message() && showValidationAlert
      ensures pollTitle == old(pollTitle) && pollDescription == old(pollDescription)
      ensures isPublic == old(isPublic) && isUsingExcel == old(isUsingExcel) && excelData == old(excelData)
      ensures manualEntries == old(manualEntries) && uniqueCode == old(uniqueCode)
      ensures showAlert == old(showAlert) && numberOfCandidates == old(numberOfCandidates)
    {
      if pollTitle == [] {
        alertMessage := EmptyTitle.Message();
        showValidationAlert := true;
        return;
      }
      if !MatchesTextPattern(pollTitle, 2, 20) {
        alertMessage := BadTitle.Message();
        showValidationAlert := true;
        return;
      }
      if !MatchesTextPattern(pollDescription, 5, 200) {
        alertMessage := BadDescription.Message();
        showValidationAlert := true;
        return;
      }
      // The pattern has just refused every text shorter than five characters,
      // so the emptiness check that follows in the app can never fire.
      PatternNeedsLowerBound(pollDescription, 5, 200);
      if pollDescription == [] {
        assert false;
      }
      step := 2;
    }

    /** `resetInputValues`: back to an empty first step, with one candidate chosen. */
    method ResetInputValues()
      modifies this
      ensures step == 1 && pollTitle == [] && pollDescription == []
      ensures numberOfCandidates == Some(1) && !isPublic && !isUsingExcel
      ensures excelData == [] && manualEntries == [] && uniqueCode == []
      ensures showAlert == old(showAlert) && alertMessage == old(alertMessage)
      ensures showValidationAlert == old(showValidationAlert)
    {
      pollTitle := [];
      pollDescription := [];
      numberOfCandidates := Some(1);
      isPublic := false;
      isUsingExcel := false;
      excelData := [];
      manualEntries := [];
      uniqueCode := [];
      step := 1;
    }

    /**
     * `saveDataToFirebase(with: code)`: the code the poll is filed under (the
     * one passed in), what is written under it (the poll's details, then
     * every participant, imported or entered by hand, rewritten entry by
     * entry) and the completion alert.
     */
    method SaveData(code: string) returns (filedUnder: string, info: PollInfo, saved: seq<Record>)
      modifies this
      ensures filedUnder == code
      ensures info == PollInfo(pollTitle, pollDescription, numberOfCandidates, isPublic)
      ensures var source := if isUsingExcel then CsvImport.ParsedCsv(excelData) else manualEntries;
              |saved| == |source| && forall i :: 0 <= i < |source| ==> SavedAs(source[i], saved[i])
      ensures showAlert
      ensures step == old(step) && pollTitle == old(pollTitle) && pollDescription == old(pollDescription)
      ensures isPublic == old(isPublic) && isUsingExcel == old(isUsingExcel) && excelData == old(excelData)
      ensures manualEntries == old(manualEntries) && uniqueCode == old(uniqueCode)
      ensures alertMessage == old(alertMessage) && showValidationAlert == old(showValidationAlert)
      ensures numberOfCandidates == old(numberOfCandidates)
    {
      filedUnder := code;
      info := PollInfo(pollTitle, pollDescription, numberOfCandidates, isPublic);
      var dataToSave: seq<Record>;
      if isUsingExcel {
        dataToSave := CsvImport.ParseCsv(excelData);
      } else {
        dataToSave := manualEntries;
      }
      saved := PrepareEntriesForSave(dataToSave);
      showAlert := true;
    }
  }
}
