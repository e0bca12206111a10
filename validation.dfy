/**
 * The contact form's record and its validator's specification: which field
 * gets which error message for a given record.
 */
module Validation {
  import opened Text

  datatype Option<T> = None | Some(value: T)

  /** The form's field names, the keys of its error map. */
  datatype Field = Name | Email | Phone | Subject | Message | GdprConsent

  /** The fields edited through a text input (the `name` attribute of the
      input that fires a change event). */
  type TextField = f: Field | f != GdprConsent witness Name

  const ALL_FIELDS: set<Field> := {Name, Email, Phone, Subject, Message, GdprConsent}

  /** The fields the validator checks; `Phone` and `Subject` are optional. */
  const CHECKED_FIELDS: set<Field> := {Name, Email, Message, GdprConsent}

  /** The form record. */
  datatype FormData = FormData(
    name: string,
    email: string,
    phone: string,
    subject: string,
    message: string,
    gdprConsent: bool)
  {
    /** The value of a text field. */
    function Get(f: TextField): string {
      match f
      case Name => name
      case Email => email
      case Phone => phone
      case Subject => subject
      case Message => message
    }

    /** The record with one text field replaced (`{ ...prev, [name]: value }`). */
    function With(f: TextField, value: string): (d: FormData)
      ensures d.Get(f) == value
      ensures forall g: TextField :: g != f ==> d.Get(g) == Get(g)
      ensures d.gdprConsent == gdprConsent
    {
      match f
      case Name => this.(name := value)
      case Email => this.(email := value)
      case Phone => this.(phone := value)
      case Subject => this.(subject := value)
      case Message => this.(message := value)
    }
  }

  /** The record the form starts with and is reset to: every text empty,
      consent not given. */
  const INITIAL: FormData := FormData("", "", "", "", "", false)

  // The validator's messages, in the form's language.
  const NAME_REQUIRED: string := "Imię jest wymagane"
  const EMAIL_REQUIRED: string := "Email jest wymagany"
  const EMAIL_INVALID: string := "Nieprawidłowy adres email"
  const MESSAGE_REQUIRED: string := "Wiadomość jest wymagana"
  const CONSENT_REQUIRED: string := "Musisz wyrazić zgodę na przetwarzanie danych"

  const MESSAGES: set<string> :=
    {NAME_REQUIRED, EMAIL_REQUIRED, EMAIL_INVALID, MESSAGE_REQUIRED, CONSENT_REQUIRED}

  // ---------------------------------------------------------------------
  // The e-mail pattern /\S+@\S+\.\S+/, tested without anchors.
  // ---------------------------------------------------------------------

  /** `s[lo..hi]` holds no white space. */
  predicate NoWs(s: string, lo: int, hi: int)
    requires 0 <= lo <= hi <= |s|
  {
    forall k :: lo <= k < hi ==> !IsWs(s[k])
  }

  /** The shortest match of the pattern: an `@` at `at` with a non-white
      character before it, then one or more non-white characters, then a `.`
      at `dot`, then one non-white character. */
  predicate MatchAt(s: string, at: int, dot: int) {
    && 1 <= at
    && at + 1 < dot
    && dot + 1 < |s|
    && s[at] == '@'
    && s[dot] == '.'
    && !IsWs(s[at - 1])
    && NoWs(s, at + 1, dot)
    && !IsWs(s[dot + 1])
  }

  /** `/\S+@\S+\.\S+/.test(s)`, as the existence of a shortest match. It
      holds exactly when the regular expression matches some slice of `s`. */
  predicate EmailPattern(s: string)
    ensures EmailPattern(s) <==> RegexMatches(s)
  {
    ShortestMatchIsRegex(s);
    ShortestMatchExists(s)
  }

  /** Some `@` and `.` positions form a shortest match. */
  predicate ShortestMatchExists(s: string) {
    exists at, dot | 0 <= at < dot < |s| :: MatchAt(s, at, dot)
  }

  /** What the regular expression matches, spelled out: some slice
      `s[lo..hi]` is a non-empty white-space-free run, an `@`, a non-empty
      white-space-free run, a `.`, and a non-empty white-space-free run. */
  ghost predicate RegexMatches(s: string) {
    exists lo, at, dot, hi :: RegexMatchesSlice(s, lo, at, dot, hi)
  }

  /** `s[lo..hi]` is a match of the pattern whose `@` is at `at` and whose
      `.` is at `dot`. */
  ghost predicate RegexMatchesSlice(s: string, lo: int, at: int, dot: int, hi: int) {
    && 0 <= lo < at
    && at + 1 < dot
    && dot + 1 < hi <= |s|
    && s[at] == '@'
    && s[dot] == '.'
    && NoWs(s, lo, at)
    && NoWs(s, at + 1, dot)
    && NoWs(s, dot + 1, hi)
  }

  /** The shortest-match predicate agrees with the full regular expression:
      since `@` and `.` are themselves not white space, every match can be
      shrunk to one character before the `@` and one after the `.`. */
  lemma ShortestMatchIsRegex(s: string)
    ensures ShortestMatchExists(s) <==> RegexMatches(s)
  {
    if ShortestMatchExists(s) {
      var at, dot :| 0 <= at < dot < |s| && MatchAt(s, at, dot);
      assert RegexMatchesSlice(s, at - 1, at, dot, dot + 2);
    }
    if RegexMatches(s) {
      var lo, at, dot, hi :| RegexMatchesSlice(s, lo, at, dot, hi);
      assert !IsWs(s[at - 1]);
      assert !IsWs(s[dot + 1]);
      assert MatchAt(s, at, dot);
    }
  }

  /** The test is unanchored: text around a matching address keeps it
      matching. */
  lemma EmailPatternUnanchored(s: string, before: string, after: string)
    requires EmailPattern(s)
    ensures EmailPattern(before + s + after)
  {
    var at, dot :| 0 <= at < dot < |s| && MatchAt(s, at, dot);
    MatchShifts(s, before, after, at, dot);
  }

  /** A shortest match moves with its string when text surrounds it. */
  lemma MatchShifts(s: string, before: string, after: string, at: int, dot: int)
    requires MatchAt(s, at, dot)
    ensures MatchAt(before + s + after, |before| + at, |before| + dot)
  {
    var t := before + s + after;
    var n := |before|;
    assert forall k :: 0 <= k < |s| ==> t[n + k] == s[k];
  }

  lemma EmailPatternAccepts()
    ensures EmailPattern("a@b.co")
  {
    assert MatchAt("a@b.co", 1, 3);
  }

  lemma EmailPatternRejects()
    ensures !EmailPattern("not-an-email")
  {
  }

  /** A pattern match needs an `@` and, later, a `.`; white space alone, in
      particular "", never matches. */
  lemma EmailPatternNeedsAtAndDot(s: string)
    requires EmailPattern(s)
    ensures exists at, dot | 0 <= at < dot < |s| :: s[at] == '@' && s[dot] == '.'
    ensures !AllWs(s)
  {
  }

  // ---------------------------------------------------------------------
  // The validator's specification.
  // ---------------------------------------------------------------------

  /** The message the validator reports for field `f` of `d`, if any. The
      e-mail check is on the untrimmed value; the "required" and "invalid"
      messages exclude each other. */
  function ErrorOf(d: FormData, f: Field): (r: Option<string>)
    ensures f == Phone || f == Subject ==> r == None
    ensures r.Some? ==> r.value != []
  {
    match f
    case Name => if IsBlank(d.name) then Some(NAME_REQUIRED) else None
    case Email =>
      if IsBlank(d.email) then Some(EMAIL_REQUIRED)
      else if !EmailPattern(d.email) then Some(EMAIL_INVALID)
      else None
    case Message => if IsBlank(d.message) then Some(MESSAGE_REQUIRED) else None
    case GdprConsent => if !d.gdprConsent then Some(CONSENT_REQUIRED) else None
    case Phone => None
    case Subject => None
  }

  /** The error map the validator produces for `d`: one entry per failing
      field. */
  function Errors(d: FormData): (e: map<Field, string>)
    ensures forall f :: f in e <==> ErrorOf(d, f).Some?
    ensures forall f :: f in e ==> e[f] == ErrorOf(d, f).value
  {
    map f | f in ALL_FIELDS && ErrorOf(d, f).Some? :: ErrorOf(d, f).value
  }

  /** The record passes every check of the validator. */
  predicate Passes(d: FormData) {
    && !IsBlank(d.name)
    && !IsBlank(d.email) && EmailPattern(d.email)
    && !IsBlank(d.message)
    && d.gdprConsent
  }

  /** The error map is empty exactly when the record passes. */
  lemma ErrorsEmptyIff(d: FormData)
    ensures Errors(d) == map[] <==> Passes(d)
  {
    EmptyIffNoFieldFails(d);
  }

  /** Passing, with blankness read as "white space only": a name and a
      message that are not all white space, an e-mail matching the pattern
      (a match is never blank), and consent. */
  lemma PassesIffNotWhiteSpace(d: FormData)
    ensures Passes(d) <==>
      !AllWs(d.name) && EmailPattern(d.email) && !AllWs(d.message) && d.gdprConsent
  {
    if EmailPattern(d.email) {
      EmailPatternNeedsAtAndDot(d.email);
    }
  }

  /** The error map is empty exactly when none of the checked fields fails. */
  lemma EmptyIffNoFieldFails(d: FormData)
    ensures Errors(d) == map[] <==>
      && ErrorOf(d, Name) == None && ErrorOf(d, Email) == None
      && ErrorOf(d, Message) == None && ErrorOf(d, GdprConsent) == None
  {
  }

  /** Only the four checked fields can carry errors. */
  lemma ErrorKeysChecked(d: FormData)
    ensures Errors(d).Keys <= CHECKED_FIELDS
  {
  }

  /** Every message in the error map is one of the validator's five. */
  lemma ErrorValuesKnown(d: FormData)
    ensures Errors(d).Values <= MESSAGES
  {
  }

  /** For the initial (and reset) record, all four checked fields fail with
      their "required" messages. */
  lemma InitialErrors()
    ensures Errors(INITIAL) == map[
      Name := NAME_REQUIRED, Email := EMAIL_REQUIRED,
      Message := MESSAGE_REQUIRED, GdprConsent := CONSENT_REQUIRED]
    ensures Errors(INITIAL).Keys == CHECKED_FIELDS
  {
  }

  /** The e-mail field gets "required" exactly when blank, "invalid" exactly
      when non-blank and not matching, and no error otherwise. */
  lemma EmailMessages(d: FormData)
    ensures Email in Errors(d) && Errors(d)[Email] == EMAIL_REQUIRED <==> IsBlank(d.email)
    ensures Email in Errors(d) && Errors(d)[Email] == EMAIL_INVALID <==>
      !IsBlank(d.email) && !EmailPattern(d.email)
    ensures Email !in Errors(d) <==> !IsBlank(d.email) && EmailPattern(d.email)
  {
  }

  /** The error map field by field: each check's message under its key, and
      no key for the optional fields. */
  lemma ErrorsByField(d: FormData)
    ensures Name in Errors(d) <==> IsBlank(d.name)
    ensures Name in Errors(d) ==> Errors(d)[Name] == NAME_REQUIRED
    ensures Email in Errors(d) <==> IsBlank(d.email) || !EmailPattern(d.email)
    ensures Email in Errors(d) ==>
      Errors(d)[Email] == if IsBlank(d.email) then EMAIL_REQUIRED else EMAIL_INVALID
    ensures Message in Errors(d) <==> IsBlank(d.message)
    ensures Message in Errors(d) ==> Errors(d)[Message] == MESSAGE_REQUIRED
    ensures GdprConsent in Errors(d) <==> !d.gdprConsent
    ensures GdprConsent in Errors(d) ==> Errors(d)[GdprConsent] == CONSENT_REQUIRED
    ensures Phone !in Errors(d) && Subject !in Errors(d)
  {
  }

  /** The validator's checks determine the error map: any map that holds
      each failing check's message under its key, and nothing else, is it. */
  lemma ChecksDetermineErrors(d: FormData, e: map<Field, string>)
    requires Name in e <==> IsBlank(d.name)
    requires Name in e ==> e[Name] == NAME_REQUIRED
    requires Email in e <==> IsBlank(d.email) || !EmailPattern(d.email)
    requires Email in e ==> e[Email] == if IsBlank(d.email) then EMAIL_REQUIRED else EMAIL_INVALID
    requires Message in e <==> IsBlank(d.message)
    requires Message in e ==> e[Message] == MESSAGE_REQUIRED
    requires GdprConsent in e <==> !d.gdprConsent
    requires GdprConsent in e ==> e[GdprConsent] == CONSENT_REQUIRED
    requires Phone !in e && Subject !in e
    ensures e == Errors(d)
  {
    ErrorsByField(d);
    forall f ensures (f in e <==> f in Errors(d)) && (f in e ==> e[f] == Errors(d)[f]) {
      match f
      case Name =>
      case Email =>
      case Phone =>
      case Subject =>
      case Message =>
      case GdprConsent =>
    }
    SameOnEveryField(e, Errors(d));
  }

  /** Two error maps that agree on every field name are equal. */
  lemma SameOnEveryField(a: map<Field, string>, b: map<Field, string>)
    requires forall f :: f in a <==> f in b
    requires forall f :: f in a ==> a[f] == b[f]
    ensures a == b
  {
  }

  /** A field's error depends on that field's value alone. */
  lemma ErrorOfLocal(d: FormData, f: TextField, value: string, g: Field)
    requires g != f
    ensures ErrorOf(d.With(f, value), g) == ErrorOf(d, g)
  {
  }

  /** Editing one text field can only clear a flagged field, never add one
      elsewhere: the other flagged fields stay flagged. */
  lemma EditKeepsOtherErrors(d: FormData, f: TextField, value: string, errors: map<Field, string>)
    requires errors.Keys <= Errors(d).Keys
    ensures (errors - {f}).Keys <= Errors(d.With(f, value)).Keys
  {
    forall g | g in errors - {f} ensures g in Errors(d.With(f, value)) {
      ErrorOfLocal(d, f, value, g);
    }
  }

  /** Toggling consent leaves every text field's error as it was. */
  lemma ConsentEditKeepsOtherErrors(d: FormData, checked: bool, errors: map<Field, string>)
    requires errors.Keys <= Errors(d).Keys
    ensures (errors - {GdprConsent}).Keys <= Errors(d.(gdprConsent := checked)).Keys
  {
    forall g | g in errors - {GdprConsent} ensures g in Errors(d.(gdprConsent := checked)) {
      assert ErrorOf(d.(gdprConsent := checked), g) == ErrorOf(d, g);
    }
  }

  /** Removing a key that is not there leaves an error map as it is. */
  lemma RemoveAbsent(errors: map<Field, string>, f: Field)
    requires f !in errors
    ensures errors - {f} == errors
  {
  }

  /** The optional fields never affect the result. */
  lemma OptionalFieldsIgnored(d: FormData, f: TextField, value: string)
    requires f == Phone || f == Subject
    ensures Errors(d.With(f, value)) == Errors(d)
  {
    var e := d.With(f, value);
    forall g ensures ErrorOf(e, g) == ErrorOf(d, g) {
      if g != f {
        ErrorOfLocal(d, f, value, g);
      }
    }
    SameOnEveryField(Errors(e), Errors(d));
  }

  /** A completely filled-in sample record passes. */
  lemma SampleRecordPasses()
    ensures Errors(FormData("Anna", "a@b.co", "", "", "Hello", true)) == map[]
  {
    var d := FormData("Anna", "a@b.co", "", "", "Hello", true);
    EmailPatternAccepts();
    assert !IsWs(d.name[0]) && !IsWs(d.email[0]) && !IsWs(d.message[0]);
    PassesIffNotWhiteSpace(d);
    ErrorsEmptyIff(d);
  }
}
