/**
 * The sign-in diagnostics page: it tries a Google sign-in and, when that
 * fails, explains the provider's error code with a diagnosis and a fix.
 */
module TestAuth {
  import opened Wrappers
  import opened Habits

  /** The four error codes the page explains. */
  datatype KnownCode = UnauthorizedDomain | OperationNotAllowed | PopupBlocked | PopupClosedByUser

  /** The provider's text for each explained code. */
  function CodeText(k: KnownCode): string {
    match k
    case UnauthorizedDomain => "auth/unauthorized-domain"
    case OperationNotAllowed => "auth/operation-not-allowed"
    case PopupBlocked => "auth/popup-blocked"
    case PopupClosedByUser => "auth/popup-closed-by-user"
  }

  /** No two explained codes share a text. */
  lemma CodeTextInjective(j: KnownCode, k: KnownCode)
    requires CodeText(j) == CodeText(k)
    ensures j == k
  {
    assert CodeText(j)[5] == CodeText(k)[5];
    assert CodeText(j)[11] == CodeText(k)[11];
  }

  /** Which explained code, if any, an error carries. */
  function Classify(code: Option<string>): (r: Option<KnownCode>)
    ensures r.Some? ==> code == Some(CodeText(r.value))
    ensures r.None? ==> forall k :: code != Some(CodeText(k))
  {
    if code == Some(CodeText(UnauthorizedDomain)) then Some(UnauthorizedDomain)
    else if code == Some(CodeText(OperationNotAllowed)) then Some(OperationNotAllowed)
    else if code == Some(CodeText(PopupBlocked)) then Some(PopupBlocked)
    else if code == Some(CodeText(PopupClosedByUser)) then Some(PopupClosedByUser)
    else None
  }

  /** Each explained code is recognised as itself. */
  lemma ClassifyKnown(k: KnownCode)
    ensures Classify(Some(CodeText(k))) == Some(k)
  {
    var r := Classify(Some(CodeText(k)));
    CodeTextInjective(r.value, k);
  }

  /** A diagnosis and the steps that fix it. */
  datatype Diagnosis = Diagnosis(diagnosis: string, solution: string)

  const GenericSolution: string := "Check Firebase configuration and console logs"

  /** What went wrong, for each explained code. */
  function DiagnosisOf(k: KnownCode): string {
    match k
    case UnauthorizedDomain => "Domain not authorized in Firebase"
    case OperationNotAllowed => "Google Sign-in not enabled"
    case PopupBlocked => "Browser blocked the popup"
    case PopupClosedByUser => "User closed the popup"
  }

  /** How to fix it, for each explained code. */
  function SolutionOf(k: KnownCode): string {
    match k
    case UnauthorizedDomain =>
      "Go to Firebase Console \U{2192} Authentication \U{2192} Settings \U{2192} Authorized domains\n          Add: localhost and your production domain"
    case OperationNotAllowed =>
      "Go to Firebase Console \U{2192} Authentication \U{2192} Sign-in method\n          Enable Google provider"
    case PopupBlocked => "Allow popups for this site in your browser settings"
    case PopupClosedByUser => "Try again and complete the sign-in process"
  }

  /** The advice for each explained code. */
  function Advice(k: KnownCode): Diagnosis {
    Diagnosis(DiagnosisOf(k), SolutionOf(k))
  }

  /**
   * The `switch` on the error code: an explained code gets its advice; any
   * other code is its own diagnosis ("Unknown error" when it is missing or
   * empty), with the generic advice.
   */
  function Diagnose(code: Option<string>): (r: Diagnosis)
    ensures forall k :: code == Some(CodeText(k)) ==> r == Advice(k)
    ensures (forall k :: code != Some(CodeText(k))) ==>
              r.solution == GenericSolution
              && r.diagnosis == (if Truthy(code) then code.value else "Unknown error")
  {
    match Classify(code)
    case Some(k) =>
      assert forall j :: code == Some(CodeText(j)) ==> j == k by {
        forall j | code == Some(CodeText(j)) { CodeTextInjective(j, k); }
      }
      Advice(k)
    case None => Diagnosis(Or(code, Some("Unknown error")).value, GenericSolution)
  }

  /** Each explained code gets its own diagnosis. */
  lemma DiagnosesDistinct(j: KnownCode, k: KnownCode)
    requires j != k
    ensures Advice(j).diagnosis != Advice(k).diagnosis
  {
    assert |DiagnosisOf(j)| != |DiagnosisOf(k)|;
  }

  /** No explained code gets the generic advice. */
  lemma AdviceNotGeneric(k: KnownCode)
    ensures Advice(k).solution != GenericSolution
  {
    assert |GenericSolution| == 45;
    match k {
      case UnauthorizedDomain =>
      case OperationNotAllowed =>
      case PopupBlocked => assert |SolutionOf(k)| == 51;
      case PopupClosedByUser => assert |SolutionOf(k)| == 42;
    }
  }

  /**
   * An unexplained code is never mistaken for an explained one: its advice is
   * the generic one, which no explained code gets.
   */
  lemma UnknownCodesNeverMisread(code: Option<string>, k: KnownCode)
    requires forall j :: code != Some(CodeText(j))
    ensures Diagnose(code) != Advice(k)
  {
    AdviceNotGeneric(k);
  }

  /** How the sign-in attempt ended. */
  datatype SignInReply =
    | SignedIn(user: User)
    | SignInFailed(code: Option<string>, message: Option<string>)

  /** What the page shows after a test. */
  datatype TestResult =
    | Success(user: User)
    | Failure(error: Option<string>, code: Option<string>, diagnosis: string, solution: string)

  class TestAuthPage {
    var testResult: Option<TestResult>
    var loading: bool

    constructor ()
      ensures testResult.None? && !loading
    {
      testResult := None;
      loading := false;
    }

    /**
     * `testGoogleAuth`: a sign-in shows the user's four profile fields; a
     * failure shows the provider's message and code verbatim with their
     * diagnosis. `loading` ends false either way.
     */
    method TestGoogleAuth(reply: SignInReply)
      modifies this
      ensures !loading && testResult.Some?
      ensures reply.SignedIn? ==> testResult.value == Success(reply.user)
      ensures reply.SignInFailed? ==>
                testResult.value.Failure?
                && testResult.value.error == reply.message && testResult.value.code == reply.code
                && Diagnosis(testResult.value.diagnosis, testResult.value.solution) == Diagnose(reply.code)
    {
      loading := true;
      testResult := None;
      match reply {
        case SignedIn(user) =>
          testResult := Some(Success(User(user.uid, user.email, user.displayName, user.photoURL)));
        case SignInFailed(code, message) =>
          var d := Diagnose(code);
          testResult := Some(Failure(message, code, d.diagnosis, d.solution));
      }
      loading := false;
    }
  }
}
