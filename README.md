# vote_service core, modelled in Dafny

vote_service is a SwiftUI app for running small polls. This project models four of its screens.

- **Creating a poll** (`CreatePollView`):
  - the title and description are checked against regular expressions;
  - a five-character poll code is drawn from letters and digits;
  - participants are imported from CSV text or typed in by hand;
  - every participant's phone number is rewritten to `+82…` before the poll is saved.
- **Entering participants by hand** (`ManualEntryView`):
  - four field checks, each with its own error message;
  - a row is added with its phone reformatted, and rows can be removed.
- **Voting** (`DoVoteView`):
  - the typed phone number is normalised;
  - the poll's participant list is scanned for a record that matches both the phone and the name;
  - an SMS code is requested and then verified;
  - a 60-second countdown calls `deleteUser` when it runs out, which deletes whichever account is signed in then, if any.
- **Drawing straws** (`StrawDrawingView`):
  - steppers set the number of people and of winners, and names can be typed in;
  - one straw is dealt per person, winners are chosen by a random permutation, and the straws are shuffled;
  - tapping a straw draws it, and the final alert lists the winners.

The modules are:

- `Records`: the participant record type and the Korean field keys.
- `Text`: the Foundation string operations the core relies on, stated over code points. These are prefix tests, splitting and joining, trimming, and character removal.
- `PhoneNumbers`: the three phone normalisations and how they agree.
- `CsvImport`: `parseCSVData`, as a loop proved equal to a specification function.
- `CreatePoll`: the pattern gate, the poll code, the save rewrite, and the form as a class.
- `ManualEntry`: the hand-entry form as a class.
- `DoVote`: the participant scan, the countdown as a step function, and the verification session as a class.
- `StrawDrawing`: the straw game as a class. Its invariant `StrawGameOk` is kept by every method. It bounds the winners, ties them to the drawn winning straws, and keeps every straw identity below the next one to be handed out. Lemmas cover the shuffle, the winner count and the final alert.

State the screens change in place becomes fields of a `class`, changed by methods with `modifies` clauses. Pure helpers become functions.

Randomness is passed in as data:

- the code's character draws are passed as indices;
- the winner choice and the shuffle are passed as permutations.

Remote answers are passed in as values:

- the database snapshot;
- the SMS-send outcome;
- the sign-in result.

## Model

| member | source | states |
|---|---|---|
| Text.Split | vote_service/vote_service/MakeVote/CreatePollView.swift:340-345 | `components(separatedBy:)` gives one more piece than there are separators, no piece holds the separator, and joining the pieces gives back the input |
| Text.SplitOfJoin | vote_service/vote_service/StrawDrawingView.swift:149 | splitting a join of separator-free pieces gives back exactly those pieces |
| Text.SplitWithoutSeparator | vote_service/vote_service/MakeVote/CreatePollView.swift:340 | text without the separator is a single piece |
| Text.SplitAfterPiece | vote_service/vote_service/MakeVote/CreatePollView.swift:340 | a separator-free first piece comes off whole, and splitting continues after its separator |
| Text.SplitOfSeparatorsOnly | vote_service/vote_service/MakeVote/CreatePollView.swift:340-341 | text made only of separators splits into empty pieces |
| Text.TrimStart | vote_service/vote_service/MakeVote/CreatePollView.swift:342-345 | the result is a suffix of the input, everything cut was whitespace or newline, and it does not start with one |
| Text.TrimEnd | vote_service/vote_service/MakeVote/CreatePollView.swift:342-345 | the result is a prefix of the input, everything cut was whitespace or newline, and it does not end with one |
| Text.Trim | vote_service/vote_service/MakeVote/CreatePollView.swift:342-345 | a trimmed field neither starts nor ends with whitespace or a newline, and is no longer than the input |
| Text.TrimIsSlice | vote_service/vote_service/MakeVote/CreatePollView.swift:342-345 | trimming keeps a contiguous slice and cuts only whitespace on either side |
| Text.TrimIdempotent | vote_service/vote_service/MakeVote/CreatePollView.swift:342-345 | trimming twice is the same as trimming once |
| Text.RemoveAll | vote_service/vote_service/MakeVote/ManualEntryView.swift:154 | removing a character leaves none of it, and the length drops by exactly its number of occurrences |
| Text.RemoveAllKeepsOthers | vote_service/vote_service/MakeVote/ManualEntryView.swift:154 | every other character keeps its number of occurrences |
| PhoneNumbers.Digits | vote_service/vote_service/MakeVote/CreatePollView.swift:323 | the `[^0-9]` removal, which is also what `\D` does at DoVoteView.swift:104 and ManualEntryView.swift:184: every character that is not a digit 0 to 9 is dropped and the digits keep their order; the lemmas below state this |
| PhoneNumbers.DigitsAreDigits | vote_service/vote_service/MakeVote/CreatePollView.swift:323 | removing every non-digit leaves only digits and never lengthens the text |
| PhoneNumbers.DigitsKeepsEveryDigit | vote_service/vote_service/MakeVote/CreatePollView.swift:323 | each digit occurs as often as before, and every non-digit is gone |
| PhoneNumbers.DigitsOfDigits | vote_service/vote_service/MakeVote/CreatePollView.swift:323 | digit-only text is left unchanged |
| PhoneNumbers.DigitsAppend | vote_service/vote_service/MakeVote/CreatePollView.swift:323 | digit extraction distributes over concatenation |
| PhoneNumbers.DigitsAcrossSeparator | vote_service/vote_service/MakeVote/CreatePollView.swift:323 | a run of digits followed by a non-digit separator keeps the run and drops the separator |
| PhoneNumbers.DigitsOfDashedNumber | vote_service/vote_service/MakeVote/CreatePollView.swift:323 | "a-b-c" with digit groups becomes "abc" |
| PhoneNumbers.DigitsAfterCountryCode | vote_service/vote_service/MakeVote/CreatePollView.swift:323 | the "+" of "+82" is dropped and "82" stays |
| PhoneNumbers.FormatForRegistration | vote_service/vote_service/MakeVote/CreatePollView.swift:322-336 | the saved phone always starts with "+82" and only digits follow the "+", on every input including the empty one |
| PhoneNumbers.RegistrationDigits | vote_service/vote_service/MakeVote/CreatePollView.swift:322-336 | the saved phone's digits are everything after its "+" |
| PhoneNumbers.RegistrationIdempotent | vote_service/vote_service/MakeVote/CreatePollView.swift:322-336 | formatting an already formatted phone changes nothing |
| PhoneNumbers.RegistrationIgnoresSeparators | vote_service/vote_service/MakeVote/CreatePollView.swift:322-336 | two phones with the same digits are saved alike, whatever separators they hold |
| PhoneNumbers.RegistrationOfTrunkNumber | vote_service/vote_service/MakeVote/CreatePollView.swift:329-333 | "010-b-c" is saved as "+8210bc" |
| PhoneNumbers.RegistrationOfInternationalNumber | vote_service/vote_service/MakeVote/CreatePollView.swift:325-327 | a "+82…" phone is saved unchanged |
| PhoneNumbers.RegistrationOfBareNumber | vote_service/vote_service/MakeVote/CreatePollView.swift:335 | "1…" is saved as "+821…" |
| PhoneNumbers.RegistrationOfEmpty | vote_service/vote_service/MakeVote/CreatePollView.swift:323-335 | an empty phone is saved as "+82" |
| PhoneNumbers.FormatForManualEntry | vote_service/vote_service/MakeVote/ManualEntryView.swift:183-192 | a hand-entered phone whose digits start with the trunk "0" becomes "+82" followed by the digits after that "0"; any other phone becomes its bare digits, with no "+"; so the result starts with "+" exactly in the trunk case |
| PhoneNumbers.ManualThenRegistration | vote_service/vote_service/MakeVote/ManualEntryView.swift:183-192 | formatting by hand first and then at save gives the same number as formatting at save alone |
| PhoneNumbers.FormatForVerification | vote_service/vote_service/DoVote/DoVoteView.swift:104-106 | the number looked up starts with "+82" followed by digits, and its length is 3 plus the digit count, less one when a trunk "0" is dropped |
| PhoneNumbers.VerificationAgreesWithRegistration | vote_service/vote_service/DoVote/DoVoteView.swift:104-106 | the number looked up equals the number saved exactly when the typed digits do not start with "82" |
| PhoneNumbers.TrunkPrefixAgrees | vote_service/vote_service/DoVote/DoVoteView.swift:104-106 | a number typed with the trunk "0" is looked up as it was saved |
| PhoneNumbers.ManualEntryFoundAgain | vote_service/vote_service/MakeVote/ManualEntryView.swift:183-192 | a voter who types the same text that was entered by hand is looked up under the number that was saved exactly when its digits do not start with "82"; "82101234567" is saved as "+82101234567" but looked up as "+8282101234567" |
| PhoneNumbers.VerificationOfTrunkNumber | vote_service/vote_service/DoVote/DoVoteView.swift:104-106 | "010bc" typed at voting matches "010-b-c" saved at creation |
| PhoneNumbers.VerificationOfInternationalNumber | vote_service/vote_service/DoVote/DoVoteView.swift:104-106 | a number typed as "+82…" becomes "+8282…" and does not match what was saved |
| CsvImport.Rows | vote_service/vote_service/MakeVote/CreatePollView.swift:340 | the rows are the pieces of the text between newlines with the empty ones dropped, in order |
| CsvImport.EntryOf | vote_service/vote_service/MakeVote/CreatePollView.swift:347-350 | the record of one row maps each column name to the field in the same column, and a later column with the same name overwrites an earlier one |
| CsvImport.ParsedCsv | vote_service/vote_service/MakeVote/CreatePollView.swift:338-356 | no rows give no records; otherwise the first row's trimmed fields name the columns and every later row with exactly that many fields gives one record, in row order |
| CsvImport.NonEmptyLines | vote_service/vote_service/MakeVote/CreatePollView.swift:340 | the kept lines are exactly the non-empty ones, and there are no more of them than lines |
| CsvImport.NonEmptyLinesOfEmptyLines | vote_service/vote_service/MakeVote/CreatePollView.swift:340-341 | only empty lines leave no rows |
| CsvImport.Fields | vote_service/vote_service/MakeVote/CreatePollView.swift:342-345 | a row has one field per comma plus one, each the trimmed comma-separated piece |
| CsvImport.EntryOfKeys | vote_service/vote_service/MakeVote/CreatePollView.swift:347-350 | a record's keys are exactly the header names |
| CsvImport.EntryOfStep | vote_service/vote_service/MakeVote/CreatePollView.swift:348-350 | each loop step stores header k under value k on top of the earlier columns |
| CsvImport.EntryOfLastColumnWins | vote_service/vote_service/MakeVote/CreatePollView.swift:348-350 | with a repeated header, the last such column's value is kept |
| CsvImport.FieldsOfRows | vote_service/vote_service/MakeVote/CreatePollView.swift:344-345 | each row's fields are split and trimmed in turn |
| CsvImport.RecordsOf | vote_service/vote_service/MakeVote/CreatePollView.swift:344-353 | there are never more records than data rows |
| CsvImport.EntryFromFields | vote_service/vote_service/MakeVote/CreatePollView.swift:347-350 | the inner loop builds exactly the header-to-value record |
| CsvImport.ParseCsv | vote_service/vote_service/MakeVote/CreatePollView.swift:338-356 | the imperative parse returns exactly the records the specification describes |
| CsvImport.RecordsOfAppend | vote_service/vote_service/MakeVote/CreatePollView.swift:344-353 | rows are parsed independently and in order |
| CsvImport.RecordsOfOneRow | vote_service/vote_service/MakeVote/CreatePollView.swift:346-352 | a row gives one record when its field count matches the header's, and is skipped otherwise |
| CsvImport.RecordsOfMatchingRows | vote_service/vote_service/MakeVote/CreatePollView.swift:344-353 | when every row matches, record i is row i under the headers |
| CsvImport.RecordsOfMismatchedRows | vote_service/vote_service/MakeVote/CreatePollView.swift:346 | rows whose field count is off give no records |
| CsvImport.RecordsOfKeys | vote_service/vote_service/MakeVote/CreatePollView.swift:347-350 | every record has exactly the header names as keys |
| CsvImport.NoLinesNoRecords | vote_service/vote_service/MakeVote/CreatePollView.swift:340-341 | text with no non-empty line gives no records |
| CsvImport.HeaderAndOneRow | vote_service/vote_service/MakeVote/CreatePollView.swift:338-355 | a header line plus one matching line gives exactly that one record |
| CreatePoll.MatchesTextPattern | vote_service/vote_service/MakeVote/CreatePollView.swift:26-27 | the test `range(of:options: .regularExpression) != nil` of `^[가-힣a-zA-Z\s]{lo,hi}$`: a run of `lo` to `hi` Hangul syllables, Latin letters or Unicode White_Space characters (ICU's `\s`, which includes U+000B and U+0085) from the start, followed by the end of the text or a final line terminator, where ICU lets `$` match |
| CreatePoll.MatchesTextPatternCases | vote_service/vote_service/MakeVote/CreatePollView.swift:26-27 | the anchored pattern accepts exactly lo..hi Hangul syllables, Latin letters or white-space characters, optionally followed by one final line terminator |
| CreatePoll.TitlePatternAcceptsLettersAndSpaces | vote_service/vote_service/MakeVote/CreatePollView.swift:26 | 2 to 20 Hangul syllables, Latin letters or white-space characters make a valid title |
| CreatePoll.TitleAcceptsEveryWhiteSpace | vote_service/vote_service/MakeVote/CreatePollView.swift:26 | a title with a vertical tab (U+000B) or NEXT LINE (U+0085) between allowed characters, 2 to 20 characters in all, passes the title pattern |
| CreatePoll.PatternNeedsLowerBound | vote_service/vote_service/MakeVote/CreatePollView.swift:26-27 | text shorter than the lower bound is refused |
| CreatePoll.PatternRejectsForeignChar | vote_service/vote_service/MakeVote/CreatePollView.swift:26-27 | any character outside the class that is not a line terminator means refusal |
| CreatePoll.PatternRejectsDigit | vote_service/vote_service/MakeVote/CreatePollView.swift:26-27 | a digit anywhere means refusal |
| CreatePoll.FirstValidationError | vote_service/vote_service/MakeVote/CreatePollView.swift:234-260 | no error exactly when both patterns match; an empty title, a bad title and a bad description are each reported exactly in their case, in that order; the empty-description message can never be reached |
| CreatePoll.CodeIndex | vote_service/vote_service/MakeVote/CreatePollView.swift:275 | every letter or digit has a position in the code alphabet |
| CreatePoll.CodeAlphabetIsLettersAndDigits | vote_service/vote_service/MakeVote/CreatePollView.swift:275 | the alphabet has 62 distinct symbols, all of them ASCII letters or digits |
| CreatePoll.UniqueCode | vote_service/vote_service/MakeVote/CreatePollView.swift:274-277 | a code has five characters, each an ASCII letter or digit |
| CreatePoll.EveryCodeCanBeDrawn | vote_service/vote_service/MakeVote/CreatePollView.swift:274-277 | every five-character letter-or-digit code comes from some draw |
| CreatePoll.SavedAs | vote_service/vote_service/MakeVote/CreatePollView.swift:310-316 | an entry as it is written: the same keys, the phone (if any) normalised for registration, every other field unchanged |
| CreatePoll.PrepareEntriesForSave | vote_service/vote_service/MakeVote/CreatePollView.swift:310-317 | every participant is saved in order, with its phone (if any) reformatted and every other field kept |
| CreatePoll.SavedAsIsUnique | vote_service/vote_service/MakeVote/CreatePollView.swift:310-317 | the saved form of an entry is determined by the entry |
| CreatePoll.SavedAsIdempotent | vote_service/vote_service/MakeVote/CreatePollView.swift:310-317 | saving a saved entry again changes nothing |
| CreatePoll.SavedWithoutPhone | vote_service/vote_service/MakeVote/CreatePollView.swift:312-314 | an entry without a phone is saved unchanged |
| CreatePoll.CreatePollForm.constructor | vote_service/vote_service/MakeVote/CreatePollView.swift:7-21 | the form starts at step 1 with everything empty |
| CreatePoll.CreatePollForm.ValidateAndProceed | vote_service/vote_service/MakeVote/CreatePollView.swift:234-260 | on an error the message is shown and the step stays; otherwise the step advances; nothing else changes |
| CreatePoll.CreatePollForm.ResetInputValues | vote_service/vote_service/MakeVote/CreatePollView.swift:262-272 | every input returns to its starting value, the candidate count becomes 1, and the alerts are untouched |
| CreatePoll.CreatePollForm.SaveData | vote_service/vote_service/MakeVote/CreatePollView.swift:292-320 | the poll is filed under the code passed in; the poll details are written with each participant, from CSV or typed by hand, saved in order with a "+82" phone, and the completion alert is raised |
| ManualEntry.NameOk | vote_service/vote_service/MakeVote/ManualEntryView.swift:145-146 | a name passes when it has one to ten characters |
| ManualEntry.PhoneOk | vote_service/vote_service/MakeVote/ManualEntryView.swift:154-155 | a phone passes when, with its dashes removed, it is eleven characters that are all digits |
| ManualEntry.OptionalFieldOk | vote_service/vote_service/MakeVote/ManualEntryView.swift:163-164 | an affiliation or student number passes when it is empty or has one to twenty characters |
| ManualEntry.EntryIsValid | vote_service/vote_service/MakeVote/ManualEntryView.swift:141-180 | an entry is valid when all four checks pass, with an absent field read as the empty text |
| ManualEntry.OptionalFieldBounds | vote_service/vote_service/MakeVote/ManualEntryView.swift:162-178 | an optional field passes exactly when it has at most 20 characters |
| ManualEntry.DigitsIgnoreRemoval | vote_service/vote_service/MakeVote/ManualEntryView.swift:154 | removing dashes does not change a phone's digits |
| ManualEntry.AcceptedPhoneDigits | vote_service/vote_service/MakeVote/ManualEntryView.swift:153-160 | an accepted phone has exactly 11 digits, which are the phone without its dashes |
| ManualEntry.AcceptedPhoneFormat | vote_service/vote_service/MakeVote/ManualEntryView.swift:183-192 | an accepted phone that starts with "0" is stored as 13 characters starting with "+82", and any other is stored as its bare digits |
| ManualEntry.OnlyDashesAreDropped | vote_service/vote_service/MakeVote/ManualEntryView.swift:153-160 | any character other than a dash or a digit makes the phone invalid |
| ManualEntry.ManualEntryForm.constructor | vote_service/vote_service/MakeVote/ManualEntryView.swift:4-11 | the form starts with the given list, an empty entry and no errors |
| ManualEntry.ManualEntryForm.EditField | vote_service/vote_service/MakeVote/ManualEntryView.swift:17-60 | a keystroke stores the text under its field's key and changes nothing else |
| ManualEntry.ManualEntryForm.ValidateEntry | vote_service/vote_service/MakeVote/ManualEntryView.swift:141-181 | the entry is accepted exactly when all four checks pass, and each error message is set exactly when its own check fails |
| ManualEntry.ManualEntryForm.AddEntry | vote_service/vote_service/MakeVote/ManualEntryView.swift:73-86 | a valid entry is appended after the existing ones with the same fields and a reformatted phone, the form is cleared and the errors dismissed; an invalid entry changes neither the list nor the form; in both cases each of the four errors is shown exactly when its own check failed |
| ManualEntry.ManualEntryForm.RemoveEntry | vote_service/vote_service/MakeVote/ManualEntryView.swift:122 | exactly row `index` is gone, and the rest are kept in order |
| ManualEntry.RemovalKeepsOrder | vote_service/vote_service/MakeVote/ManualEntryView.swift:122 | after a removal, row j is the old row j before the removed index and the old row j+1 from it on |
| DoVote.IsVoter | vote_service/vote_service/DoVote/DoVoteView.swift:116-120 | a child is the voter when it is a dictionary with string values under the phone and the name key, equal to the normalised phone and the typed name |
| DoVote.VoterListed | vote_service/vote_service/DoVote/DoVoteView.swift:111-126 | the lookup finds the voter when the poll exists, its value is a dictionary, and some child is the voter |
| DoVote.ChildWithoutKeysIsNobody | vote_service/vote_service/DoVote/DoVoteView.swift:116-118 | a participant record missing the phone or name key never matches |
| DoVote.FindParticipant | vote_service/vote_service/DoVote/DoVoteView.swift:111-126 | found exactly when some participant has both the phone and the name; then the index is the first such participant |
| DoVote.RegisteredVoterFound | vote_service/vote_service/DoVote/DoVoteView.swift:104-120 | a participant saved with a trunk-prefixed phone is found when the voter types that phone and name |
| DoVote.Started | vote_service/vote_service/DoVote/DoVoteView.swift:179-186 | a start cancels any old subscription and counts from 60, running, with a new subscription; the number of `deleteUser` calls is kept |
| DoVote.TickStep | vote_service/vote_service/DoVote/DoVoteView.swift:186-194 | a running countdown above zero loses one second; at zero the timer stops and `deleteUser` is called once |
| DoVote.TickKeepsTimerOk | vote_service/vote_service/DoVote/DoVoteView.swift:187-194 | a tick keeps the timer consistent and never raises the count |
| DoVote.CountdownRuns | vote_service/vote_service/DoVote/DoVoteView.swift:187-188 | n ticks of a live countdown subtract n and change nothing else |
| DoVote.ExpiresOnTick61 | vote_service/vote_service/DoVote/DoVoteView.swift:179-194 | after a start, 60 ticks reach zero with no call of `deleteUser`; the 61st stops the timer and calls it exactly once; later ticks change nothing |
| DoVote.SignedInVoterStillDeleted | vote_service/vote_service/DoVote/DoVoteView.swift:167-194 | a sign-in leaves a live countdown running, so count + 1 ticks later `deleteUser` has been called exactly once more and the timer is stopped; that call deletes the voter's account if it is the one signed in (see `Tick`) |
| DoVote.TicksSplit | vote_service/vote_service/DoVote/DoVoteView.swift:187-194 | m+n ticks are m ticks followed by n |
| DoVote.VerificationSession.constructor | vote_service/vote_service/DoVote/DoVoteView.swift:10-21 | the session starts empty with a 60-second countdown that has not started |
| DoVote.VerificationSession.SendVerificationCode | vote_service/vote_service/DoVote/DoVoteView.swift:103-110 | the request reads the poll code and normalises the phone as they are at the moment of the request, and the number starts with "+82" followed by digits; nothing on the screen changes yet |
| DoVote.VerificationSession.ParticipantsArrived | vote_service/vote_service/DoVote/DoVoteView.swift:110-140 | when the answer arrives, a code is requested for the number normalised at request time exactly when the poll lists the voter under it and the name typed by then; an unknown poll code and a mismatch each raise their own alert |
| DoVote.VerificationSession.SendCodeCompleted | vote_service/vote_service/DoVote/DoVoteView.swift:143-156 | on failure only the error alert changes; on success the id is kept, the code counts as sent and the countdown restarts at 60 |
| DoVote.VerificationSession.VerifyCode | vote_service/vote_service/DoVote/DoVoteView.swift:158-167 | without an id the failure alert is raised and no sign-in is attempted; otherwise a sign-in is attempted with the id and the typed code |
| DoVote.VerificationSession.SignInCompleted | vote_service/vote_service/DoVote/DoVoteView.swift:167-176 | a failed sign-in raises its alert; a successful one opens the poll; either way the countdown is left exactly as it was |
| DoVote.VerificationSession.StartTimer | vote_service/vote_service/DoVote/DoVoteView.swift:179-186 | the countdown restarts at 60 and is live |
| DoVote.VerificationSession.StopTimer | vote_service/vote_service/DoVote/DoVoteView.swift:198-202 | the countdown stops, and its count and deletions are kept |
| DoVote.VerificationSession.DeleteUser | vote_service/vote_service/DoVote/DoVoteView.swift:204-213 | the call is counted; a deletion is requested for the account signed in at that moment when there is one, and for nobody when there is none |
| DoVote.VerificationSession.Tick | vote_service/vote_service/DoVote/DoVoteView.swift:187-194 | a tick advances the timer by exactly one step; at zero it raises the expiry alert and deletes the account then signed in, if any; otherwise nobody is deleted and the alerts are untouched |
| StrawDrawing.Shuffled | vote_service/vote_service/StrawDrawingView.swift:184 | the shuffle, as a given permutation: position i of the result holds what was at position p[i], and the length is unchanged |
| StrawDrawing.ShuffleLastStep | vote_service/vote_service/StrawDrawingView.swift:184 | a shuffle is a smaller shuffle of the straws left when its last pick is removed, followed by that pick |
| StrawDrawing.ShuffledIsPermutation | vote_service/vote_service/StrawDrawingView.swift:184 | shuffling keeps every straw exactly as often as before |
| StrawDrawing.MultisetWithout | vote_service/vote_service/StrawDrawingView.swift:184 | removing one straw removes exactly one occurrence of it |
| StrawDrawing.ShuffledCount | vote_service/vote_service/StrawDrawingView.swift:184 | shuffling keeps the number of winning straws |
| StrawDrawing.ShuffledKeepsIdsDistinct | vote_service/vote_service/StrawDrawingView.swift:184 | shuffling keeps straw identities distinct |
| StrawDrawing.CountsAppend | vote_service/vote_service/StrawDrawingView.swift:179-181 | the winner counts add up over concatenation |
| StrawDrawing.CountsAfterDraw | vote_service/vote_service/StrawDrawingView.swift:191-198 | drawing an undrawn straw keeps the winner count and raises the drawn-winner count by one exactly when it wins |
| StrawDrawing.DrawnWinnersBounded | vote_service/vote_service/StrawDrawingView.swift:187-206 | there are never more drawn winners than winners, and when the counts are equal every winning straw is drawn |
| StrawDrawing.DecimalRoundTrip | vote_service/vote_service/StrawDrawingView.swift:168-170 | the decimal text of n reads back as n |
| StrawDrawing.DefaultNames | vote_service/vote_service/StrawDrawingView.swift:168-170 | name i is "사람 " followed by i+1 in decimal |
| StrawDrawing.DefaultNamesDistinct | vote_service/vote_service/StrawDrawingView.swift:168-170 | the default names are pairwise distinct |
| StrawDrawing.Dealt | vote_service/vote_service/StrawDrawingView.swift:179-181 | one straw per name, in order: straw i carries name i, is undrawn, has a fresh identity, and wins exactly when i is a chosen winner position |
| StrawDrawing.DealtCount | vote_service/vote_service/StrawDrawingView.swift:176-181 | the winners among the first n straws are the chosen positions below n |
| StrawDrawing.DealtWinners | vote_service/vote_service/StrawDrawingView.swift:176-181 | the first pickCount entries of a permutation give exactly pickCount winning straws |
| StrawDrawing.ShuffledDeal | vote_service/vote_service/StrawDrawingView.swift:166-185 | the shuffled deal has one straw per name with distinct identities from `firstId` up to, but not including, `firstId` plus the number of names, none drawn, exactly pickCount winners, and the same straws as the deal |
| StrawDrawing.NoneDrawn | vote_service/vote_service/StrawDrawingView.swift:179-181 | undrawn straws hold no drawn winner |
| StrawDrawing.WinnersBounded | vote_service/vote_service/StrawDrawingView.swift:197-198 | never more winners are collected than there are winning straws |
| StrawDrawing.AllWinnersDrawn | vote_service/vote_service/StrawDrawingView.swift:197-201 | once every winner is collected, every winning straw has been drawn |
| StrawDrawing.WinnersDistinct | vote_service/vote_service/StrawDrawingView.swift:197-198 | no straw is collected as a winner twice |
| StrawDrawing.DrawKeepsDrawingOk | vote_service/vote_service/StrawDrawingView.swift:187-206 | drawing an undrawn straw keeps the number of winning straws and keeps the collected winners in step with the drawn winning straws |
| StrawDrawing.DrawLoserKeepsDrawingOk | vote_service/vote_service/StrawDrawingView.swift:191-197 | a drawn losing straw is not collected, and the collected winners stay exactly the drawn winning straws |
| StrawDrawing.DrawWinnerKeepsDrawingOk | vote_service/vote_service/StrawDrawingView.swift:191-198 | a drawn winning straw is collected last, and the collected winners stay exactly the drawn winning straws, each position once |
| StrawDrawing.DrawKeepsIds | vote_service/vote_service/StrawDrawingView.swift:192 | drawing changes no identity: distinct identities stay distinct and any bound on them still holds |
| StrawDrawing.IdsBelowEach | vote_service/vote_service/StrawDrawingView.swift:179-181 | every identity lies below the bound exactly when each straw's does |
| StrawDrawing.DrawKeepsGameOk | vote_service/vote_service/StrawDrawingView.swift:187-206 | drawing an undrawn straw keeps the whole game invariant |
| StrawDrawing.WinnersMessage | vote_service/vote_service/StrawDrawingView.swift:149 | the final alert's text is "당첨자:", a newline, then the winners' names joined by newlines, in draw order |
| StrawDrawing.WinnersMessageLines | vote_service/vote_service/StrawDrawingView.swift:145-156 | the final alert's lines are the heading followed by the winners' names, in drawing order |
| StrawDrawing.StrawGame.constructor | vote_service/vote_service/StrawDrawingView.swift:4-14 | the game starts with 6 people, 2 winners, no names and no straws |
| StrawDrawing.StrawGame.StepTotalPeople | vote_service/vote_service/StrawDrawingView.swift:23 | the people stepper moves by one within pickCount+1 to 20 |
| StrawDrawing.StrawGame.StepPickCount | vote_service/vote_service/StrawDrawingView.swift:28 | the winner stepper moves by one within 1 to totalPeople-1 |
| StrawDrawing.StrawGame.SetShowNameInput | vote_service/vote_service/StrawDrawingView.swift:33 | the toggle sets the name-input switch and keeps the game valid |
| StrawDrawing.StrawGame.SetName | vote_service/vote_service/StrawDrawingView.swift:41-51 | an edit replaces an existing name or appends a new one |
| StrawDrawing.StrawGame.NextNames | vote_service/vote_service/StrawDrawingView.swift:168-170 | there are always at least totalPeople names, and typed names are used when they are switched on and enough were typed |
| StrawDrawing.StrawGame.GenerateStraws | vote_service/vote_service/StrawDrawingView.swift:166-185 | the straws are the chosen names dealt with the permuted winners and then shuffled: one per name, exactly pickCount winners, none drawn; their identities are at least the old `nextId`, `nextId` advances by one per name, and every identity stays below it, so no later deal reuses one |
| StrawDrawing.StrawGame.StartDrawing | vote_service/vote_service/StrawDrawingView.swift:160-164 | drawing starts with no winners and freshly generated straws whose identities are all new |
| StrawDrawing.StrawGame.RestartDrawing | vote_service/vote_service/StrawDrawingView.swift:216-221 | the game restarts with no winners and freshly generated straws whose identities differ from every earlier straw's |
| StrawDrawing.StrawGame.ResetGame | vote_service/vote_service/StrawDrawingView.swift:208-214 | back to setup: not drawing, with no straws, winners or names |
| StrawDrawing.StrawGame.DrawStraw | vote_service/vote_service/StrawDrawingView.swift:187-206 | a drawn or unknown straw changes nothing; otherwise exactly that straw becomes drawn and shown, and it is collected exactly when it wins; the game invariant is kept |
| StrawDrawing.StrawGame.WinnersAtMostPickCount | vote_service/vote_service/StrawDrawingView.swift:197-201 | never more than pickCount winners are collected |
| StrawDrawing.StrawGame.ResultAppeared | vote_service/vote_service/StrawDrawingView.swift:125-128 | the result card animates in |
| StrawDrawing.StrawGame.ResultDismissed | vote_service/vote_service/StrawDrawingView.swift:129-139 | the card closes; the final alert opens exactly when the straw shown won and the last winner is in, and by then every winning straw has been drawn |
| StrawDrawing.PositionOf | vote_service/vote_service/StrawDrawingView.swift:191 | the first position holding the identity, or none exactly when no straw has it |
| StrawDrawing.FirstIndexOf | vote_service/vote_service/StrawDrawingView.swift:191 | the loop finds exactly the first position with that identity |

## Left out

- Firebase Realtime Database reads and writes are not modelled.
  - The snapshot a lookup returns is an input, `DoVote.Snapshot`. It is given to `ParticipantsArrived` together with the `Lookup` that `SendVerificationCode` made at request time.
  - What `saveDataToFirebase` writes is returned as values instead of being written.
- The `checkAndSavePoll` retry is not modelled. It redraws a code until an unused one is found, which needs the remote store.
- FirebaseAuth calls are completion events:
  - `verifyPhoneNumber` is `SendCodeCompleted`;
  - `signIn` is `SignInCompleted`;
  - `Auth.auth().currentUser` is an input of `DeleteUser` and `Tick`, the account signed in at that moment. Which account that is, for example one signed in by the sign-up screen, is not modelled.
  - `deleteUserCalls` counts calls of `deleteUser`, whether or not an account was signed in; the outcome of `user.delete` is not modelled.
- `Timer.publish` and `DispatchQueue.asyncAfter` are discrete method calls (`Tick`, `ResultDismissed`). Real time is not modelled.
- DoVote.VerificationSession.Tick: requires a live subscription. A cancelled timer delivers no further ticks.
- Randomness becomes inputs:
  - `randomElement` becomes index draws;
  - `shuffled` and `shuffle` become permutations;
  - `UUID()` becomes a counter of fresh identities.
- Dictionary iteration order in the participant scan is the order of the snapshot's child sequence.
- Characters are Unicode code points, not grapheme clusters.
  - `isNumber` and `\D` are read as the ASCII digits 0 to 9.
- Layout, navigation, `presentationMode` and alerts are not modelled. Alerts are only a message and a flag.
- The other screens are not part of this model: roulette, document picking, sign-up, poll detail and main view.
- PhoneNumbers.VerificationOfInternationalNumber: a voter who types the number in "+82…" form is looked up as "+8282…" and is not found. The model follows the code here, not the intent that both forms match.
- StrawDrawing.StrawGame.DrawStraw: requires that the tapped straw is the current copy of the straw with that identity. The source's `ForEach` always passes the current copy.
- StrawDrawing.StrawGame.SetName: requires drawing off, names switched on and an index below `totalPeople`. The source shows a field for each index below `totalPeople` while names are switched on, and disables it while drawing, so no edit happens then.
- StrawDrawing.StrawGame.GenerateStraws: the winner-choice and shuffle permutations are parameters.
