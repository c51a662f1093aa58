/**
 * The `check(...)` chains of src/routes/routes.js. Each chain records, in
 * order, the message of every validator that fails; a validator without
 * `withMessage` records express-validator's default "Invalid value". Only
 * `register` reads the recorded errors; the task and assign-manager routes
 * record them and no handler looks.
 */
module Validators {
  import opened Wrappers
  import opened Text
  import opened Mongo
  import opened Calendar
  import opened TaskModel
  import TaskController

  const DefaultMessage := "Invalid value"

  /** A validator's message when it fails, nothing when it passes. */
  function Fails(passes: bool, message: string): (r: seq<string>)
    ensures |r| == if passes then 0 else 1
    ensures !passes ==> r[0] == message
  {
    if passes then [] else [message]
  }

  /** The text a validator sees: an absent field is the empty string. */
  function Seen(v: Option<string>): string {
    v.GetOr("")
  }

  // ---------------------------------------------------------------- validator.js predicates

  /** `isIn(values)`. */
  predicate IsIn(v: Option<string>, values: seq<string>) {
    Seen(v) in values
  }

  /** `isHexadecimal`: an optional `0x` or `0h` prefix (either case) and at least one hexadecimal digit. */
  predicate IsHexadecimal(s: string) {
    var digits := if |s| >= 2 && s[0] == '0' && s[1] in "xXhH" then s[2..] else s;
    |digits| >= 1 && forall i | 0 <= i < |digits| :: IsHexDigit(digits[i])
  }

  /** `isMongoId`: hexadecimal text of length 24, prefix included. */
  predicate IsMongoId(s: string) {
    IsHexadecimal(s) && |s| == 24
  }

  /** Every id a document can hold passes `isMongoId`. */
  lemma ObjectIdIsMongoId(s: string)
    requires IsObjectIdText(s)
    ensures IsMongoId(s)
  {
    assert IsHexDigit(s[1]);
    assert !(s[1] in "xXhH");
  }

  /** ... but `isMongoId` also accepts a prefixed text that no id cast accepts. */
  lemma PrefixedMongoId()
    ensures var s := "0x" + Repeat('0', 22);
      IsMongoId(s) && !IsObjectIdText(s)
  {
    var s := "0x" + Repeat('0', 22);
    assert s[2..] == Repeat('0', 22);
    assert forall i | 0 <= i < 22 :: IsHexDigit(s[2..][i]);
    assert !IsHexDigit(s[1]);
  }

  /** The regular expression `^\d{2}\/\d{2}\/\d{4}$` (in JavaScript `$` matches only at the end). */
  predicate DmyPattern(s: string) {
    DmyShape(s)
  }

  /** The handler's strict date check is stricter than the route's pattern: the pattern does not ask for a real date. */
  lemma DueDatePatternIsLoose()
    ensures forall s :: ValidDueDate(Some(s)) ==> DmyPattern(s)
    ensures var s := "31" + "/" + "02" + "/" + "2024";
      DmyPattern(s) && !ValidDueDate(Some(s))
  {
    SlashedParts("31", "02", "2024");
    assert AllDigits("31") && AllDigits("02") && AllDigits("2024");
    assert DigitsValue("31") == 31 by {
      assert "31"[..1] == "3";
    }
    assert DigitsValue("02") == 2 by {
      assert "02"[..1] == "0";
    }
    var d := DmyFields("31" + "/" + "02" + "/" + "2024");
    assert d.month == 2 && d.day == 31;
    assert DaysInMonth(d.year, d.month) <= 29;
  }

  // ---------------------------------------------------------------- passwords

  /** The characters `.` does not match in a JavaScript regular expression. */
  predicate IsLineTerminator(c: char) {
    c == '\n' || c == '\r' || c == '\U{2028}' || c == '\U{2029}'
  }

  /** The text before the first line terminator. */
  function FirstLine(s: string): (r: string)
    ensures |r| <= |s| && r == s[..|r|]
    ensures forall i | 0 <= i < |r| :: !IsLineTerminator(r[i])
    ensures |r| < |s| ==> IsLineTerminator(s[|r|])
  {
    if s == [] || IsLineTerminator(s[0]) then []
    else [s[0]] + FirstLine(s[1..])
  }

  predicate IsLower(c: char) { 'a' <= c <= 'z' }
  predicate IsUpper(c: char) { 'A' <= c <= 'Z' }
  predicate IsSpecial(c: char) { c in "@#$&!" }

  /** `^(?=.*[a-z])(?=.*[A-Z])(?=.*\d)(?=.*[@#$&!])`: each lookahead scans from the start and cannot cross a line terminator. */
  predicate PasswordPattern(s: string) {
    var line := FirstLine(s);
    Contains(line, IsLower) && Contains(line, IsUpper) && Contains(line, IsDigit) && Contains(line, IsSpecial)
  }

  /** Some character of `s` is in the class. */
  predicate Contains(s: string, inClass: char -> bool) {
    s != [] && (inClass(s[0]) || Contains(s[1..], inClass))
  }

  lemma {:induction false} ContainsMeans(s: string, inClass: char -> bool)
    ensures Contains(s, inClass) <==> exists i | 0 <= i < |s| :: inClass(s[i])
  {
    if s != [] {
      ContainsMeans(s[1..], inClass);
      if Contains(s[1..], inClass) {
        var i :| 0 <= i < |s[1..]| && inClass(s[1..][i]);
        assert inClass(s[i + 1]);
      }
      if !inClass(s[0]) && exists i | 0 <= i < |s| :: inClass(s[i]) {
        var i :| 0 <= i < |s| && inClass(s[i]);
        assert inClass(s[1..][i - 1]);
      }
    }
  }

  /** The `withMessage` texts of the chains. */
  const UsernameMessage := "Username must be a string and cannot be empty"
  const EmailMessage := "Email must be a valid email address and cannot be empty"
  const LengthMessage := "Password must be between 8 to 15 characters"
  const RoleMessage := "Role must be one of the following: admin, manager, user"
  const ManagerIdMessage := "Manager ID must be a valid MongoDB ID"
  const TitleRequired := "Title is required"
  const DescriptionRequired := "Description is required"
  const DueDatePatternMessage := "Due date must be in DD/MM/YYYY format"
  const PriorityRequired := "Priority is required"
  const AssignedToMessage := "AssignedTo must be a valid user ID"
  const TitleMessage := "Title must be a non-empty string"
  const DescriptionMessage := "Description must be a non-empty string"
  const PriorityMessage := "Priority must be one of: low, medium, high"
  const StatusMessage := "Status must be one of: pending, in progress, completed"
  const PatternMessage := "Password must contain at least one lowercase letter, one uppercase letter, one number, and one special character from @#$&!"

  /** The variation selectors U+FE0E and U+FE0F, which `isLength` does not count. */
  predicate IsVariationSelector(c: char) {
    c == '\U{FE0E}' || c == '\U{FE0F}'
  }

  /** The length `isLength` measures: code points other than the variation selectors. */
  function IsLengthCount(s: string): (n: nat)
    ensures n <= |s|
  {
    if s == [] then 0 else (if IsVariationSelector(s[0]) then 0 else 1) + IsLengthCount(s[1..])
  }

  /** A text without variation selectors measures its number of code points. */
  lemma {:induction false} PlainTextLength(s: string)
    requires forall i | 0 <= i < |s| :: !IsVariationSelector(s[i])
    ensures IsLengthCount(s) == |s|
  {
    if s != [] {
      PlainTextLength(s[1..]);
    }
  }

  /** A variation selector adds one code point and nothing to the measured length. */
  lemma {:induction false} SelectorNotCounted(s: string, c: char)
    requires IsVariationSelector(c)
    ensures IsLengthCount(s + [c]) == IsLengthCount(s)
  {
    if s == [] {
      assert [c][1..] == [];
    } else {
      assert (s + [c])[1..] == s[1..] + [c];
      SelectorNotCounted(s[1..], c);
    }
  }

  /** The password chain: length first, then the pattern. */
  function PasswordErrors(password: Option<string>): (errors: seq<string>)
    ensures |errors| == 0 <==> 8 <= IsLengthCount(Seen(password)) <= 15 && PasswordPattern(Seen(password))
  {
    var p := Seen(password);
    Fails(8 <= IsLengthCount(p) <= 15, LengthMessage)
    + Fails(PasswordPattern(p),
        PatternMessage)
  }

  /** The first line of a text with a line break is what comes before the break. */
  lemma FirstLineOf(a: string, b: string)
    requires forall i | 0 <= i < |a| :: !IsLineTerminator(a[i])
    ensures FirstLine(a + "\n" + b) == a
  {
    var s := a + "\n" + b;
    assert s[|a|] == '\n';
    assert s[..|a|] == a;
  }

  /** A character of each class has to come before the first line break... */
  lemma PasswordAfterLineBreak()
    ensures |PasswordErrors(Some("aaaaaaaa" + "\n" + "A1@"))| != 0
  {
    var line := "aaaaaaaa";
    FirstLineOf(line, "A1@");
    assert forall i | 0 <= i < |line| :: line[i] == 'a';
    ContainsMeans(line, IsUpper);
  }

  /** ... and nothing after it is looked at. */
  lemma PasswordBeforeLineBreak()
    ensures |PasswordErrors(Some("aA1@aaaa" + "\n" + "xyz"))| == 0
  {
    var line := "aA1@aaaa";
    FirstLineOf(line, "xyz");
    PlainTextLength(line + "\n" + "xyz");
    assert IsLower(line[0]) && IsUpper(line[1]) && IsDigit(line[2]);
    assert line[3] == '@';
    assert IsSpecial(line[3]);
  }

  /** Eight code points of which one is U+FE0F measure seven, so the length check refuses them. */
  lemma SelectorShortensPassword()
    ensures IsLengthCount("aA1@aaa" + "\U{FE0F}") == 7
    ensures LengthMessage in PasswordErrors(Some("aA1@aaa" + "\U{FE0F}"))
  {
    var line := "aA1@aaa";
    PlainTextLength(line);
    SelectorNotCounted(line, '\U{FE0F}');
  }

  // ---------------------------------------------------------------- register

  /** The body of `POST /register`. */
  datatype RegisterBody = RegisterBody(
    username: Option<string>,
    email: Option<string>,
    password: Option<string>,
    role: Option<string>,
    managerId: Option<string>)

  const RoleNames: seq<string> := ["admin", "manager", "user"]

  /** Lines 57-79: the recorded errors, in chain order. `isEmail` stands for validator.js's e-mail test. */
  function RegisterErrors(body: RegisterBody, isEmail: string -> bool): (errors: seq<string>)
    ensures |errors| == 0 <==>
      body.username.Some? && body.username.value != ""
      && isEmail(Seen(body.email)) && Seen(body.email) != ""
      && |PasswordErrors(body.password)| == 0
      && (body.role.Some? ==> body.role.value in RoleNames)
      && (body.managerId.Some? ==> IsMongoId(body.managerId.value))
  {
    var username := Fails(body.username.Some?, DefaultMessage)
      + Fails(Seen(body.username) != "", UsernameMessage);
    var email := Fails(isEmail(Seen(body.email)), DefaultMessage)
      + Fails(Seen(body.email) != "", EmailMessage);
    var role := if body.role.Some? then Fails(IsIn(body.role, RoleNames), RoleMessage) else [];
    var manager := if body.managerId.Some? then Fails(IsMongoId(body.managerId.value), ManagerIdMessage) else [];
    assert |username| == 0 <==> body.username.Some? && body.username.value != "";
    assert |email| == 0 <==> isEmail(Seen(body.email)) && Seen(body.email) != "";
    assert |role| == 0 <==> (body.role.Some? ==> body.role.value in RoleNames);
    var password := PasswordErrors(body.password);
    var all := username + email + password + role + manager;
    assert |all| == |username| + |email| + |password| + |role| + |manager|;
    all
  }

  /** With no errors recorded, the three required fields are present. */
  lemma RegisterFieldsPresent(body: RegisterBody, isEmail: string -> bool)
    requires |RegisterErrors(body, isEmail)| == 0
    ensures body.username.Some? && body.email.Some? && body.password.Some?
    ensures 8 <= IsLengthCount(body.password.value) <= 15 && 8 <= |body.password.value|
  {
  }

  /** A missing username records two errors, the first with the default message. */
  lemma MissingUsername(body: RegisterBody, isEmail: string -> bool)
    requires body.username.None?
    ensures RegisterErrors(body, isEmail)[..2] == [DefaultMessage, UsernameMessage]
  {
  }

  // ---------------------------------------------------------------- task routes

  const PriorityNames: seq<string> := ["low", "medium", "high"]

  /** Lines 376-382: the chains of `POST /tasks`. */
  function CreateErrors(body: TaskController.TaskBody): (errors: seq<string>)
    ensures |errors| == 0 <==>
      Seen(body.title) != "" && body.title.Some? && Seen(body.description) != "" && body.description.Some?
      && DmyPattern(Seen(body.dueDate)) && Seen(body.priority) in PriorityNames
      && (body.assignedTo.Some? ==> IsMongoId(body.assignedTo.value))
  {
    Fails(body.title.Some?, DefaultMessage) + Fails(Seen(body.title) != "", TitleRequired)
    + Fails(body.description.Some?, DefaultMessage) + Fails(Seen(body.description) != "", DescriptionRequired)
    + Fails(DmyPattern(Seen(body.dueDate)), DueDatePatternMessage)
    + Fails(IsIn(body.priority, PriorityNames), PriorityRequired)
    + (if body.assignedTo.Some? then Fails(IsMongoId(body.assignedTo.value), AssignedToMessage) else [])
  }

  const UpdateStatuses: seq<string> := ["pending", "in progress", "completed"]

  /** Lines 588-594: the chains of `PUT /tasks/:id`, every one optional. */
  function UpdateErrors(body: TaskController.TaskBody): (errors: seq<string>)
    ensures |errors| == 0 <==>
      (body.title.Some? ==> body.title.value != "")
      && (body.description.Some? ==> body.description.value != "")
      && (body.dueDate.Some? ==> DmyPattern(body.dueDate.value))
      && (body.priority.Some? ==> body.priority.value in PriorityNames)
      && (body.status.Some? ==> body.status.value in UpdateStatuses)
  {
    (if body.title.Some? then Fails(body.title.value != "", TitleMessage) else [])
    + (if body.description.Some? then Fails(body.description.value != "", DescriptionMessage) else [])
    + (if body.dueDate.Some? then Fails(DmyPattern(body.dueDate.value), DueDatePatternMessage) else [])
    + (if body.priority.Some? then Fails(IsIn(body.priority, PriorityNames), PriorityMessage) else [])
    + (if body.status.Some? then Fails(IsIn(body.status, UpdateStatuses), StatusMessage) else [])
  }

  /**
   * The update chain and the schema disagree on the middle status: the chain
   * accepts `in progress`, which the schema refuses, and refuses
   * `in-progress`, the schema's own name.
   */
  lemma UpdateStatusMismatch(body: TaskController.TaskBody)
    requires body.title.None? && body.description.None? && body.dueDate.None? && body.priority.None?
    ensures body.status == Some("in progress") ==> |UpdateErrors(body)| == 0 && ParseStatus(body.status.value).None?
    ensures body.status == Some("in-progress") ==> |UpdateErrors(body)| != 0 && ParseStatus(body.status.value) == Some(InProgress)
  {
  }

  /** Lines 690-692 and 312: `assignedTo` of `PATCH /tasks/:id/assign`, `managerId` of the assign-manager route. */
  function IdErrors(v: Option<string>, message: string): (errors: seq<string>)
    ensures |errors| == 0 <==> IsMongoId(Seen(v))
  {
    Fails(IsMongoId(Seen(v)), message)
  }
}
