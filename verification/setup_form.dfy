/**
 * The organisation setup form: the editable list of invitee addresses,
 * which of them count as valid, the submit handler and the submit button's
 * label.
 */
module SetupForm {
  import opened Wrappers
  import opened Js
  import opened Schema
  import opened Http
  import opened OrgSetup

  /** The form's state: the organisation name field, the address fields, and whether a submission is running. */
  datatype FormState = FormState(orgName: string, emails: seq<string>, submitting: bool)

  /** The state on first render: an empty name and one empty address field. */
  const Initial: FormState := FormState("", [""], false)

  /** `addEmailField`: one more, empty, field at the end. */
  function AddEmailField(emails: seq<string>): (r: seq<string>)
    ensures |r| == |emails| + 1
    ensures r[..|emails|] == emails && r[|emails|] == ""
  {
    emails + [""]
  }

  /**
   * `removeEmailField`: with more than one field, the field at `index` is
   * dropped (an index outside the list drops nothing); the last remaining
   * field can never be removed.
   */
  function RemoveEmailField(emails: seq<string>, index: int): (r: seq<string>)
    ensures |emails| > 1 && 0 <= index < |emails| ==>
              && |r| == |emails| - 1
              && (forall i :: 0 <= i < index ==> r[i] == emails[i])
              && (forall i :: index <= i < |r| ==> r[i] == emails[i + 1])
    ensures !(|emails| > 1 && 0 <= index < |emails|) ==> r == emails
    ensures |emails| >= 1 ==> |r| >= 1
  {
    if |emails| > 1 && 0 <= index < |emails| then emails[..index] + emails[index + 1..] else emails
  }

  /** `updateEmail`: the field at `index` takes `value`; the length and every other field stay. */
  function UpdateEmail(emails: seq<string>, index: int, value: string): (r: seq<string>)
    requires 0 <= index < |emails|
    ensures |r| == |emails|
    ensures r[index] == value
    ensures forall i :: 0 <= i < |emails| && i != index ==> r[i] == emails[i]
  {
    emails[index := value]
  }

  /** Removing the field just added gives back the list as it was. */
  lemma RemoveUndoesAdd(emails: seq<string>)
    requires |emails| >= 1
    ensures RemoveEmailField(AddEmailField(emails), |emails|) == emails
  {
  }

  /** One user edit of the address list, as the rendered controls can produce it. */
  datatype Edit = Add | Remove(index: int) | Update(index: int, value: string)

  /** Applies one edit; an update only targets a rendered field, so one outside the list has no control and changes nothing. */
  function ApplyEdit(emails: seq<string>, e: Edit): seq<string> {
    match e
    case Add => AddEmailField(emails)
    case Remove(i) => RemoveEmailField(emails, i)
    case Update(i, v) => if 0 <= i < |emails| then UpdateEmail(emails, i, v) else emails
  }

  function ApplyEdits(emails: seq<string>, edits: seq<Edit>): seq<string>
    decreases |edits|
  {
    if edits == [] then emails else ApplyEdits(ApplyEdit(emails, edits[0]), edits[1..])
  }

  /** Whatever the user does, starting from the initial single field, at least one field remains. */
  lemma {:induction false} EditsNeverEmpty(emails: seq<string>, edits: seq<Edit>)
    requires |emails| >= 1
    ensures |ApplyEdits(emails, edits)| >= 1
    decreases |edits|
  {
    if edits != [] {
      var next := ApplyEdit(emails, edits[0]);
      assert |next| >= 1;
      EditsNeverEmpty(next, edits[1..]);
    }
  }

  /** `email.trim() && email.includes("@")`. */
  predicate IsValidEmail(e: string) {
    Trim(e) != "" && '@' in e
  }

  /** The trim test is implied by the `@` test: an address is valid exactly when it contains `@`. */
  lemma ValidIffHasAt(e: string)
    ensures IsValidEmail(e) <==> '@' in e
  {
    if '@' in e {
      var k :| 0 <= k < |e| && e[k] == '@';
      TrimKeeps(e, k);
    }
  }

  /** The elements of `s` that `keep` accepts, in order. */
  function Filter<T>(s: seq<T>, keep: T -> bool): (r: seq<T>)
    ensures |r| <= |s|
  {
    if s == [] then [] else (if keep(s[0]) then [s[0]] else []) + Filter(s[1..], keep)
  }

  lemma {:induction false} FilterExactly<T>(s: seq<T>, keep: T -> bool)
    ensures forall x :: x in Filter(s, keep) <==> x in s && keep(x)
    decreases |s|
  {
    if s != [] {
      FilterExactly(s[1..], keep);
      assert s == [s[0]] + s[1..];
    }
  }

  lemma {:induction false} FilterAppend<T>(a: seq<T>, b: seq<T>, keep: T -> bool)
    ensures Filter(a + b, keep) == Filter(a, keep) + Filter(b, keep)
    decreases |a|
  {
    if a == [] {
      assert a + b == b;
    } else {
      var head := if keep(a[0]) then [a[0]] else [];
      assert (a + b)[0] == a[0] && (a + b)[1..] == a[1..] + b;
      FilterAppend(a[1..], b, keep);
      assert head + (Filter(a[1..], keep) + Filter(b, keep)) == (head + Filter(a[1..], keep)) + Filter(b, keep);
    }
  }

  lemma {:induction false} FilterIdempotent<T>(s: seq<T>, keep: T -> bool)
    ensures Filter(Filter(s, keep), keep) == Filter(s, keep)
    decreases |s|
  {
    if s != [] {
      var head := if keep(s[0]) then [s[0]] else [];
      FilterIdempotent(s[1..], keep);
      FilterAppend(head, Filter(s[1..], keep), keep);
      assert Filter(head, keep) == head by {
        if keep(s[0]) {
          assert head[1..] == [];
        }
      }
    }
  }

  /** The valid addresses, in their original order and untrimmed. */
  function ValidEmails(emails: seq<string>): (r: seq<string>)
    ensures |r| <= |emails|
  {
    Filter(emails, IsValidEmail)
  }

  /** The submitted addresses are exactly the valid fields. */
  lemma ValidEmailsExactly(emails: seq<string>)
    ensures forall x :: x in ValidEmails(emails) <==> x in emails && IsValidEmail(x)
  {
    FilterExactly(emails, IsValidEmail);
  }

  /** Filtering respects concatenation: the order of the surviving addresses is the order of the fields. */
  lemma ValidEmailsAppend(a: seq<string>, b: seq<string>)
    ensures ValidEmails(a + b) == ValidEmails(a) + ValidEmails(b)
  {
    FilterAppend(a, b, IsValidEmail);
  }

  /** Filtering twice is filtering once; a list of valid addresses passes whole. */
  lemma ValidEmailsIdempotent(emails: seq<string>)
    ensures ValidEmails(ValidEmails(emails)) == ValidEmails(emails)
  {
    FilterIdempotent(emails, IsValidEmail);
  }

  /** `hasValidEmails()`. */
  predicate HasValidEmails(emails: seq<string>) {
    |ValidEmails(emails)| > 0
  }

  lemma HasValidEmailsIff(emails: seq<string>)
    ensures HasValidEmails(emails) <==> exists i :: 0 <= i < |emails| && '@' in emails[i]
  {
    ValidEmailsExactly(emails);
    if HasValidEmails(emails) {
      var x := ValidEmails(emails)[0];
      assert x in ValidEmails(emails);
      var i :| 0 <= i < |emails| && emails[i] == x;
      ValidIffHasAt(x);
    }
    if exists i :: 0 <= i < |emails| && '@' in emails[i] {
      var i :| 0 <= i < |emails| && '@' in emails[i];
      ValidIffHasAt(emails[i]);
      assert emails[i] in ValidEmails(emails);
    }
  }

  /** The submit button: "Creating..." while a submission runs, else whether any address would be invited. */
  function ButtonLabel(s: FormState): (text: string)
    ensures text == "Creating..." <==> s.submitting
    ensures text == "Save & Send Invites" <==> !s.submitting && exists i :: 0 <= i < |s.emails| && '@' in s.emails[i]
    ensures text == "Save" <==> !s.submitting && forall i :: 0 <= i < |s.emails| ==> '@' !in s.emails[i]
  {
    HasValidEmailsIff(s.emails);
    if s.submitting then "Creating..." else if HasValidEmails(s.emails) then "Save & Send Invites" else "Save"
  }

  /** What `handleSubmit` passes to the server action. */
  datatype Submission = Submission(orgName: string, emails: seq<string>)

  /**
   * `handleSubmit`: a blank name does nothing; otherwise the trimmed name
   * and the valid addresses are submitted, and the form stays in its
   * submitting state unless the action throws (`actionThrows`). A
   * successful action navigates away, so the flag is never reset then.
   */
  function HandleSubmit(s: FormState, actionThrows: bool): (r: (Option<Submission>, FormState))
    ensures r.0.None? <==> Blank(s.orgName)
    ensures r.0.None? ==> r.1 == s
    ensures r.0.Some? ==>
              && r.0.value.orgName == Trim(s.orgName)
              && r.0.value.emails == ValidEmails(s.emails)
              && r.1 == s.(submitting := !actionThrows)
  {
    TrimEmptyIffBlank(s.orgName);
    if Trim(s.orgName) == "" then (None, s)
    else (Some(Submission(Trim(s.orgName), ValidEmails(s.emails))), s.(submitting := !actionThrows))
  }

  /**
   * A submission from the form never hits the action's "Organization name
   * is required" refusal, and every address it sends contains `@`.
   */
  lemma FormSubmissionNeverNameless(s: FormState, actionThrows: bool, auth: AuthSession,
                                    orgId: Id, inviteIds: seq<Id>, now: Time, db: Db)
    requires HandleSubmit(s, actionThrows).0.Some?
    requires |inviteIds| == |HandleSubmit(s, actionThrows).0.value.emails|
    ensures var sub := HandleSubmit(s, actionThrows).0.value;
            && !CreateOrganization(auth, sub.orgName, sub.emails, orgId, inviteIds, now, db).NameRequired?
            && forall i :: 0 <= i < |sub.emails| ==> '@' in sub.emails[i]
  {
    var sub := HandleSubmit(s, actionThrows).0.value;
    TrimIdempotent(s.orgName);
    TrimEmptyIffBlank(s.orgName);
    TrimEmptyIffBlank(sub.orgName);
    ValidEmailsExactly(s.emails);
    forall i | 0 <= i < |sub.emails| ensures '@' in sub.emails[i] {
      assert sub.emails[i] in sub.emails;
      ValidIffHasAt(sub.emails[i]);
    }
  }
}
