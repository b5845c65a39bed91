/**
 * The RSVP form (src/components/RSVPForm.tsx): the validation schema the
 * answers must pass, the payload stored for valid answers, the choice
 * between updating the invitee's own answer (when the page was opened with
 * a token) and adding a new one, the prefill from a stored answer, and the
 * form's loading/success/error state around a submission.
 *
 * The e-mail format check belongs to the validation library and is a
 * predicate parameter. Messages are translation keys.
 */
module Rsvp {
  import opened Wrappers

  /** The form's fields as its inputs hold them; the head count is a number input. */
  datatype FormState = FormState(
    name: string,
    email: string,
    phone: string,
    totalPersons: real,
    dietary: string,
    rsvp: bool,
    needsCouch: bool,
    message: string,
    honeypot: string)

  const InitialForm := FormState("", "", "", 1.0, "", true, false, "", "")

  const MaxPersons := 20
  const MaxDietaryLength := 200
  const MaxMessageLength := 500

  /** The answers after a successful parse; an absent optional is `undefined`. */
  datatype Answers = Answers(
    name: string,
    email: Option<string>,
    phone: Option<string>,
    totalPersons: int,
    dietary: Option<string>,
    rsvp: bool,
    needsCouch: bool,
    message: Option<string>,
    honeypot: string)

  // ------------------------------------------------------------------
  // The schema

  /**
   * An optional string field given as a string: the first alternative
   * (`accepts`, then `optional`) keeps the string; only if it fails does
   * the literal `''` alternative turn an empty string into `undefined`.
   */
  function OptionalOrEmpty(s: string, accepts: bool): (r: Option<Option<string>>)
    ensures r.Some? <==> accepts || s == ""
    ensures r == Some(None) <==> !accepts && s == ""
    ensures r.Some? && r.value.Some? ==> r.value.value == s
  {
    if accepts then Some(Some(s)) else if s == "" then Some(None) else None
  }

  /** `z.coerce.number().int().min(1).max(20)` on a number. */
  function HeadCount(n: real): (r: Option<int>)
    ensures r.Some? <==> n.Floor as real == n && 1 <= n.Floor <= MaxPersons
    ensures r.Some? ==> r.value as real == n
  {
    if n.Floor as real == n && 1 <= n.Floor <= MaxPersons then Some(n.Floor) else None
  }

  /** `schema.safeParse(form)`: the parsed answers, or `None` when any rule fails. */
  function Validate(form: FormState, emailOk: string -> bool): (r: Option<Answers>)
    ensures r.Some? <==>
              |form.name| >= 1
              && (emailOk(form.email) || form.email == "")
              && form.totalPersons.Floor as real == form.totalPersons
              && 1 <= form.totalPersons.Floor <= MaxPersons
              && |form.dietary| <= MaxDietaryLength
              && |form.message| <= MaxMessageLength
              && form.honeypot == ""
    ensures r.Some? ==>
              r.value.name == form.name && r.value.totalPersons as real == form.totalPersons
              && r.value.rsvp == form.rsvp && r.value.needsCouch == form.needsCouch
              && r.value.honeypot == ""
              && r.value.phone == Some(form.phone)
              && r.value.dietary == Some(form.dietary) && r.value.message == Some(form.message)
              && (r.value.email.None? <==> !emailOk(form.email))
              && (r.value.email.Some? ==> r.value.email.value == form.email)
  {
    var email := OptionalOrEmpty(form.email, emailOk(form.email));
    var phone := OptionalOrEmpty(form.phone, true);
    var persons := HeadCount(form.totalPersons);
    var dietary := OptionalOrEmpty(form.dietary, |form.dietary| <= MaxDietaryLength);
    var message := OptionalOrEmpty(form.message, |form.message| <= MaxMessageLength);
    var honeypot := OptionalOrEmpty(form.honeypot, |form.honeypot| == 0);
    if |form.name| >= 1 && email.Some? && phone.Some? && persons.Some? && dietary.Some?
       && message.Some? && honeypot.Some?
    then
      Some(Answers(form.name, email.value, phone.value, persons.value, dietary.value,
                   form.rsvp, form.needsCouch, message.value, form.honeypot))
    else None
  }

  /**
   * The name is not trimmed: a name made only of blanks passes whenever the
   * other fields do, and is kept as it was typed.
   */
  lemma BlankNameAccepted(form: FormState, emailOk: string -> bool)
    requires |form.name| >= 1 && forall i | 0 <= i < |form.name| :: form.name[i] == ' '
    requires emailOk(form.email) || form.email == ""
    requires HeadCount(form.totalPersons).Some?
    requires |form.dietary| <= MaxDietaryLength && |form.message| <= MaxMessageLength && form.honeypot == ""
    ensures Validate(form, emailOk).Some? && Validate(form, emailOk).value.name == form.name
  {
  }

  /** A fractional head count, or one outside 1 to 20, fails the schema whatever the other fields hold. */
  lemma HeadCountRejected(form: FormState, emailOk: string -> bool)
    requires form.totalPersons.Floor as real != form.totalPersons
             || form.totalPersons < 1.0 || form.totalPersons > MaxPersons as real
    ensures Validate(form, emailOk).None?
  {
  }

  /**
   * A filled honeypot fails the schema, so a successful parse never takes
   * the silent-success branch for bots.
   */
  lemma HoneypotBranchUnreachable(form: FormState, emailOk: string -> bool)
    ensures form.honeypot != "" ==> Validate(form, emailOk).None?
    ensures Validate(form, emailOk).Some? ==> Validate(form, emailOk).value.honeypot == ""
  {
  }

  // ------------------------------------------------------------------
  // Payload and target

  /** The stored answer (`RSVPData`); `language` is the resolved interface language, if any. */
  datatype Payload = Payload(
    name: string,
    email: string,
    phone: string,
    totalPersons: int,
    dietary: string,
    rsvp: bool,
    needsCouch: bool,
    message: string,
    language: Option<string>)

  function OrEmpty(s: Option<string>): string {
    if s.Some? then s.value else ""
  }

  /** The payload for parsed answers: absent optionals are stored as empty strings. */
  function ToPayload(a: Answers, language: Option<string>): (p: Payload)
    ensures p.name == a.name && p.totalPersons == a.totalPersons
    ensures p.rsvp == a.rsvp && p.needsCouch == a.needsCouch && p.language == language
    ensures a.email.None? ==> p.email == ""
    ensures a.email.Some? ==> p.email == a.email.value
    ensures p.phone == OrEmpty(a.phone) && p.dietary == OrEmpty(a.dietary) && p.message == OrEmpty(a.message)
  {
    Payload(a.name, OrEmpty(a.email), OrEmpty(a.phone), a.totalPersons, OrEmpty(a.dietary),
            a.rsvp, a.needsCouch, OrEmpty(a.message), language)
  }

  /**
   * The write a submission makes: a merge into the invitee's own document,
   * stamped `updatedAt`, or a new document, stamped `createdAt`.
   */
  datatype WriteOp = MergeInto(token: string, payload: Payload) | AddNew(payload: Payload)

  function StampField(w: WriteOp): string {
    if w.MergeInto? then "updatedAt" else "createdAt"
  }

  /** `get('token') || undefined`: an empty token counts as none. */
  function UrlToken(param: Option<string>): (token: Option<string>)
    ensures token.Some? <==> param.Some? && param.value != ""
    ensures token.Some? ==> token == param
  {
    if param.Some? && param.value != "" then param else None
  }

  function WriteFor(token: Option<string>, payload: Payload): (w: WriteOp)
    ensures w.payload == payload
    ensures w.MergeInto? <==> token.Some?
    ensures w.MergeInto? ==> w.token == token.value && StampField(w) == "updatedAt"
    ensures w.AddNew? ==> StampField(w) == "createdAt"
  {
    if token.Some? then MergeInto(token.value, payload) else AddNew(payload)
  }

  // ------------------------------------------------------------------
  // Prefill

  /**
   * A stored answer as read back: absent fields are `None`; the head count
   * is present only when it was stored as a number.
   */
  datatype StoredAnswer = StoredAnswer(
    name: Option<string>,
    email: Option<string>,
    phone: Option<string>,
    totalPersons: Option<real>,
    dietary: Option<string>,
    rsvp: Option<bool>,
    needsCouch: Option<bool>,
    message: Option<string>)

  /** `!!value` for a stored flag: false when it is absent. */
  function Truthy(b: Option<bool>): bool {
    b.Some? && b.value
  }

  /**
   * The prefill: every answer field taken from the stored answer, missing
   * strings as `''`, a missing head count as 1, missing flags as false; the
   * honeypot keeps what the form held.
   */
  function Prefill(f: FormState, d: StoredAnswer): (r: FormState)
    ensures r.honeypot == f.honeypot
    ensures r.name == OrEmpty(d.name) && r.email == OrEmpty(d.email) && r.phone == OrEmpty(d.phone)
    ensures r.dietary == OrEmpty(d.dietary) && r.message == OrEmpty(d.message)
    ensures r.totalPersons == if d.totalPersons.Some? then d.totalPersons.value else 1.0
    ensures r.rsvp == Truthy(d.rsvp) && r.needsCouch == Truthy(d.needsCouch)
  {
    f.(name := OrEmpty(d.name),
       email := OrEmpty(d.email),
       phone := OrEmpty(d.phone),
       totalPersons := if d.totalPersons.Some? then d.totalPersons.value else 1.0,
       dietary := OrEmpty(d.dietary),
       rsvp := Truthy(d.rsvp),
       needsCouch := Truthy(d.needsCouch),
       message := OrEmpty(d.message))
  }

  /** How a payload reads back from the store. */
  function StoredOf(p: Payload): StoredAnswer {
    StoredAnswer(Some(p.name), Some(p.email), Some(p.phone), Some(p.totalPersons as real),
                 Some(p.dietary), Some(p.rsvp), Some(p.needsCouch), Some(p.message))
  }

  /**
   * Submitting the form prefilled from a stored answer, unchanged, stores
   * the same answer again.
   */
  lemma PrefillRoundTrip(form: FormState, base: FormState, emailOk: string -> bool, language: Option<string>)
    requires Validate(form, emailOk).Some?
    requires base.honeypot == ""
    ensures var p := ToPayload(Validate(form, emailOk).value, language);
            var again := Validate(Prefill(base, StoredOf(p)), emailOk);
            again.Some? && ToPayload(again.value, language) == p
  {
    var a := Validate(form, emailOk).value;
    var p := ToPayload(a, language);
    var f2 := Prefill(base, StoredOf(p));
    assert f2.email == p.email;
    assert (p.totalPersons as real).Floor == p.totalPersons;
    var b := Validate(f2, emailOk).value;
    assert OrEmpty(b.email) == p.email;
  }

  // ------------------------------------------------------------------
  // The form's state

  class RsvpForm {
    var form: FormState
    var loading: bool
    var success: Option<string>
    var error: Option<string>
    const token: Option<string>

    /** `tokenParam` is the page's `token` query parameter, if any. */
    constructor (tokenParam: Option<string>)
      ensures form == InitialForm && !loading && success == None && error == None
      ensures token == UrlToken(tokenParam)
    {
      form := InitialForm;
      loading := false;
      success := None;
      error := None;
      token := UrlToken(tokenParam);
    }

    /**
     * The prefill effect: with a token and an existing stored answer, the
     * form takes that answer and a success notice is shown; otherwise
     * nothing changes. A failed read is `None` like a missing document.
     */
    method ApplyPrefill(stored: Option<StoredAnswer>)
      modifies this`form, this`success
      ensures token.Some? && stored.Some? ==>
                form == Prefill(old(form), stored.value) && success == Some("form.prefill_success")
      ensures token.None? || stored.None? ==> form == old(form) && success == old(success)
    {
      if token.None? {
        return;
      }
      if stored.Some? {
        form := Prefill(form, stored.value);
        success := Some("form.prefill_success");
      }
    }

    /**
     * `onSubmit` up to the write: an invalid form shows the error, stops
     * loading and writes nothing; a valid one keeps loading and issues the
     * write of its payload to the target its token selects.
     */
    method BeginSubmit(emailOk: string -> bool, language: Option<string>) returns (write: Option<WriteOp>)
      modifies this`loading, this`success, this`error
      ensures success == None
      ensures Validate(form, emailOk).None? ==>
                write == None && !loading && error == Some("form.error")
      ensures Validate(form, emailOk).Some? ==>
                write == Some(WriteFor(token, ToPayload(Validate(form, emailOk).value, language)))
                && loading && error == None
    {
      loading := true;
      success := None;
      error := None;
      var parsed := Validate(form, emailOk);
      if parsed.None? {
        loading := false;
        error := Some("form.error");
        return None;
      }
      // A successful parse has an empty honeypot, so the silent-success path is never taken here.
      assert parsed.value.honeypot == "";
      var payload := ToPayload(parsed.value, language);
      write := Some(WriteFor(token, payload));
    }

    /** `onSubmit` after the write settles: success or error shown, loading stopped either way. */
    method FinishSubmit(written: bool)
      modifies this`loading, this`success, this`error
      ensures !loading
      ensures written ==> success == Some("form.success") && error == old(error)
      ensures !written ==> error == Some("form.error") && success == old(success)
    {
      if written {
        success := Some("form.success");
      } else {
        error := Some("form.error");
      }
      loading := false;
    }
  }
}
