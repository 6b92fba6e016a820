/** The decision logic of `AliExpress.login` after the cookies have been
    restored: a try/except/finally over four observable outcomes of the
    browser. Waiting is replaced by whether the awaited element appeared. */
module Login {
  import opened Wrappers

  /** The effects the login sequence has beyond the browser page. */
  datatype Step =
    | RemoveCookieFile   // `os.remove('cookies.pkl')`, a missing file being ignored
    | SubmitCredentials  // e-mail and password typed in and the form submitted
    | SaveCookies        // the browser's cookies pickled to 'cookies.pkl'

  /** The exception `login` lets escape to its caller. */
  datatype LoginError =
    | LoginFormTimeout     // the login form did not appear within 15 units
    | SessionProbeTimeout  // the order page marker did not appear within 15 units

  datatype Outcome = Outcome(steps: seq<Step>, error: Option<LoginError>, cookieFileAfter: bool)

  /** `cookieFile`: 'cookies.pkl' exists; `firstProbe`: the marker
      'search-key' appears within 10 units (only waited for when the file
      exists); `formFound`: the login form 'fm-login-id' appears within 15
      units; `finalProbe`: 'search-key' appears within 15 units. */
  function Login(cookieFile: bool, firstProbe: bool, formFound: bool, finalProbe: bool): (o: Outcome)
    // the credential branch runs exactly when the stored session is not usable
    ensures RemoveCookieFile in o.steps <==> !(cookieFile && firstProbe)
    ensures SubmitCredentials in o.steps <==> !(cookieFile && firstProbe) && formFound
    // the cookie file is removed before the credentials are sent
    ensures forall i, j ::
              0 <= i < |o.steps| && 0 <= j < |o.steps| &&
              o.steps[i] == RemoveCookieFile && o.steps[j] == SubmitCredentials
              ==> i < j
    // cookies are saved only after the final probe, as the very last effect
    ensures SaveCookies in o.steps <==> finalProbe
    ensures forall i :: 0 <= i < |o.steps| && o.steps[i] == SaveCookies ==> i == |o.steps| - 1
    // a failed final probe is what propagates, whatever happened before it
    ensures o.error == Some(SessionProbeTimeout) <==> !finalProbe
    // a missing login form propagates once the final probe has saved the cookies
    ensures o.error == Some(LoginFormTimeout) <==> finalProbe && !(cookieFile && firstProbe) && !formFound
    ensures o.error.None? <==> finalProbe && ((cookieFile && firstProbe) || formFound)
    ensures o.cookieFileAfter <==> finalProbe || (cookieFile && firstProbe)
  {
    // try: raise when the file is missing or the 10-unit probe times out
    var tryRaised := !cookieFile || !firstProbe;
    // except: remove the file, then wait for the form and submit; the wait
    // may itself raise, leaving that exception pending for after `finally`
    var handlerSteps :=
      if !tryRaised then []
      else if formFound then [RemoveCookieFile, SubmitCredentials]
      else [RemoveCookieFile];
    var pending := if tryRaised && !formFound then Some(LoginFormTimeout) else None;
    var fileAfterHandler := cookieFile && !tryRaised;
    // finally: the 15-unit probe; its exception replaces any pending one
    if finalProbe then
      Outcome(handlerSteps + [SaveCookies], pending, true)
    else
      Outcome(handlerSteps, Some(SessionProbeTimeout), fileAfterHandler)
  }

  /** A session that worked once is resumed on the next run: after a run that
      returned normally, a run whose 10-unit probe succeeds never touches the
      cookie file and never sends the credentials. */
  lemma SessionResumes(cookieFile: bool, firstProbe: bool, formFound: bool, finalProbe: bool,
                       formFound2: bool, finalProbe2: bool)
    requires Login(cookieFile, firstProbe, formFound, finalProbe).error.None?
    ensures var next := Login(Login(cookieFile, firstProbe, formFound, finalProbe).cookieFileAfter,
                              true, formFound2, finalProbe2);
      SubmitCredentials !in next.steps && RemoveCookieFile !in next.steps
  {
  }
}
