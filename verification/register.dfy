/** The registration screen (src/views/common/Register.tsx): the four password rules, the
    strength score and its colour, and the submit handler with its guard, its obfuscated
    request and the way it reports server and connection errors. */
module Register {
  import opened Common
  import Obfuscation

  /** `/[A-Z]/`, `/[a-z]/`, `/[0-9]/` and `/[@$!%*?&]/` on one code unit. */
  predicate IsUpper(c: bv16) { 0x41 <= c <= 0x5A }
  predicate IsLower(c: bv16) { 0x61 <= c <= 0x7A }
  predicate IsDigitUnit(c: bv16) { 0x30 <= c <= 0x39 }
  predicate IsSpecial(c: bv16) {
    c == 0x40 || c == 0x24 || c == 0x21 || c == 0x25 || c == 0x2A || c == 0x3F || c == 0x26
  }

  /** `PASSWORD_RULES[k].test(p)` for the rule at index `k`; the rules look for one matching
      code unit anywhere and none of them bounds the length. */
  predicate RuleMet(k: int, p: CodeUnits)
    requires 0 <= k < 4
  {
    exists i :: 0 <= i < |p| && (
      if k == 0 then IsUpper(p[i])
      else if k == 1 then IsLower(p[i])
      else if k == 2 then IsDigitUnit(p[i])
      else IsSpecial(p[i]))
  }

  /** The texts shown beside the rules, in their order. */
  const RuleTexts: seq<string> := ["Una letra mayúscula", "Una letra minúscula", "Un número", "Un carácter especial"]

  /** The number of `true` entries. */
  function CountMet(met: seq<bool>): (n: nat)
    ensures n <= |met|
    ensures n == |met| <==> forall i :: 0 <= i < |met| ==> met[i]
  {
    if met == [] then 0 else (if met[0] then 1 else 0) + CountMet(met[1..])
  }

  /** `Math.round(x)` for the rational `num / den` with `den > 0`: the floor of `x + 1/2`. */
  function Round(num: int, den: int): int
    requires den > 0
  {
    (2 * num + den) / (2 * den)
  }

  /** The state `validatePassword` leaves behind. */
  datatype Validation = Validation(met: seq<bool>, strength: int, isValid: bool)

  const InitialValidation: Validation := Validation([false, false, false, false], 0, false)

  /** `validatePassword(password)`: one flag per rule, the strength
      `Math.round(metCount / 4 * 100)` and validity. Valid means every rule holds, which is
      the same as a strength of 100; the strength is 25 per rule met. */
  function Validate(p: CodeUnits): (v: Validation)
    ensures |v.met| == 4 && forall k :: 0 <= k < 4 ==> (v.met[k] <==> RuleMet(k, p))
    ensures v.isValid <==> RuleMet(0, p) && RuleMet(1, p) && RuleMet(2, p) && RuleMet(3, p)
    ensures v.strength == 25 * CountMet(v.met)
    ensures v.isValid <==> v.strength == 100
  {
    var met := [RuleMet(0, p), RuleMet(1, p), RuleMet(2, p), RuleMet(3, p)];
    var n := CountMet(met);
    StrengthIsQuarterSteps(n);
    Validation(met, Round(n * 100, 4), n == 4)
  }

  /** `Math.round(n / 4 * 100)` is exactly `25 * n`. */
  lemma StrengthIsQuarterSteps(n: nat)
    requires n <= 4
    ensures Round(n * 100, 4) == 25 * n
  {
    assert 2 * (n * 100) + 4 == 8 * (25 * n) + 4;
  }

  /** The strength bar's colour. */
  function StrengthColor(strength: int): (c: string)
    ensures strength < 40 ==> c == "#ff4d4f"
    ensures 40 <= strength < 70 ==> c == "#faad14"
    ensures 70 <= strength ==> c == "#52c41a"
  {
    if strength < 40 then "#ff4d4f"
    else if strength < 70 then "#faad14"
    else "#52c41a"
  }

  /** On the strengths `validatePassword` produces: red for none or one rule met, orange for
      two, green for three or four. */
  lemma ColourByRulesMet(p: CodeUnits)
    ensures var v := Validate(p); var n := CountMet(v.met);
      (n <= 1 <==> StrengthColor(v.strength) == "#ff4d4f") &&
      (n == 2 <==> StrengthColor(v.strength) == "#faad14") &&
      (n >= 3 <==> StrengthColor(v.strength) == "#52c41a")
  {
    var v := Validate(p);
    assert v.strength == 25 * CountMet(v.met);
  }

  /** The values of the form. */
  datatype FormValues = FormValues(firstName: string, lastName: string, email: string, password: CodeUnits)

  /** The JSON body posted to the registration endpoint. */
  datatype RegisterRequest = RegisterRequest(firstName: string, lastName: string, email: string, password: string)

  /** How the request settles: the `fetch` rejects, or a response arrives whose `json()`
      yields `body` (`None` when it throws). */
  datatype Reply = NetworkFailure | Responded(ok: bool, body: Option<Js>)

  const InvalidPasswordMessage: string := "La contraseña no cumple con todos los requisitos"
  const DefaultError: string := "Error al crear la cuenta"
  const ConnectionError: string := "Error de conexión. Inténtalo de nuevo."
  const CreatedMessage: string := "Cuenta creada exitosamente. Por favor inicia sesión."

  /** What a submit leaves behind: the `errors` object, the request sent (if any) and the
      navigation performed (path and the message passed in its state). */
  datatype Submitted = Submitted(errors: Js, request: Option<RegisterRequest>, navigation: Option<(string, string)>)

  function ErrorOn(field: string, message: Js): Js {
    Obj([(field, message)])
  }

  /** What the handler shows: the `errors` object and the navigation performed. */
  datatype Shown = Shown(errors: Js, navigation: Option<(string, string)>)

  /** What the response handling yields once the request was sent. */
  function AfterReply(reply: Reply): Shown {
    match reply
    case NetworkFailure => Shown(ErrorOn("email", Str(ConnectionError)), None)
    case Responded(ok, body) =>
      if ok then Shown(Obj([]), Some(("/login", CreatedMessage)))
      else if body.None? then Shown(ErrorOn("email", Str(ConnectionError)), None)
      else match Member(body.value, "errors")
        case None => Shown(ErrorOn("email", Str(ConnectionError)), None)
        case Some(errs) =>
          if Truthy(errs) then Shown(errs, None)
          else Shown(ErrorOn("email", Or(OptMember(body.value, "message"), Str(DefaultError))), None)
  }

  /** `handleSubmit(values)` against the validation state of the last password change. */
  function Submit(validation: Validation, values: FormValues, reply: Reply): (r: Submitted)
    ensures !validation.isValid ==>
      r == Submitted(ErrorOn("password", Str(InvalidPasswordMessage)), None, None)
    ensures r.request.Some? <==>
      validation.isValid && Obfuscation.Btoa(Obfuscation.Xor(values.password)).Some?
    ensures r.request.Some? ==>
      r.request.value.password == Obfuscation.Btoa(Obfuscation.Xor(values.password)).value &&
      r.request.value.email == values.email
    ensures r.navigation.Some? ==> r.request.Some? && r.navigation.value.0 == "/login"
  {
    if !validation.isValid then Submitted(ErrorOn("password", Str(InvalidPasswordMessage)), None, None)
    else match Obfuscation.Btoa(Obfuscation.Xor(values.password))
      case None => Submitted(ErrorOn("email", Str(ConnectionError)), None, None)
      case Some(encrypted) =>
        var shown := AfterReply(reply);
        Submitted(shown.errors, Some(RegisterRequest(values.firstName, values.lastName, values.email, encrypted)), shown.navigation)
  }

  /** A password with a code unit above 0xFF makes `btoa` throw inside the `try`: the user
      sees the connection error and nothing is sent, whatever the server would answer. */
  lemma WideCharacterShowsConnectionError(validation: Validation, values: FormValues, reply: Reply, i: int)
    requires validation.isValid && 0 <= i < |values.password| && values.password[i] > 0xFF
    ensures Submit(validation, values, reply) == Submitted(ErrorOn("email", Str(ConnectionError)), None, None)
  {
    Obfuscation.XorKeepsWideUnits(values.password, i);
  }

  /** The server's answer decides what is shown once the request is sent: success navigates
      to the login page with the success message, a truthy `errors` object is shown as it
      is, otherwise `message` or the default on the e-mail field. */
  lemma ReplyOutcomes(body: seq<(string, Js)>)
    ensures AfterReply(Responded(true, Some(Obj(body)))) == Shown(Obj([]), Some(("/login", CreatedMessage)))
    ensures Lookup(body, "errors").Some? && Truthy(Lookup(body, "errors").value) ==>
      AfterReply(Responded(false, Some(Obj(body)))) == Shown(Lookup(body, "errors").value, None)
    ensures Lookup(body, "errors").None? && Lookup(body, "message").None? ==>
      AfterReply(Responded(false, Some(Obj(body)))) == Shown(ErrorOn("email", Str(DefaultError)), None)
    ensures AfterReply(Responded(false, Some(Null))) == Shown(ErrorOn("email", Str(ConnectionError)), None)
    ensures AfterReply(Responded(false, None)) == Shown(ErrorOn("email", Str(ConnectionError)), None)
  {
  }

  /** The registration form's state. */
  class RegisterForm {
    var validation: Validation
    var errors: Js
    var isLoading: bool

    constructor()
      ensures validation == InitialValidation && errors == Obj([]) && !isLoading
    {
      validation := InitialValidation;
      errors := Obj([]);
      isLoading := false;
    }

    /** `handlePasswordChange`: the validation state follows the typed password. */
    method HandlePasswordChange(p: CodeUnits) returns (isValid: bool)
      modifies this
      ensures validation == Validate(p) && isValid == validation.isValid
      ensures errors == old(errors) && isLoading == old(isLoading)
    {
      var met := [RuleMet(0, p), RuleMet(1, p), RuleMet(2, p), RuleMet(3, p)];
      var n := CountMet(met);
      StrengthIsQuarterSteps(n);
      validation := Validation(met, Round(n * 100, 4), n == 4);
      isValid := validation.isValid;
    }

    /** `handleSubmit(values)`: the guard, then the obfuscated request, then the reply. */
    method HandleSubmit(values: FormValues, reply: Reply) returns (request: Option<RegisterRequest>, navigation: Option<(string, string)>)
      modifies this
      ensures var r := Submit(old(validation), values, reply);
        errors == r.errors && request == r.request && navigation == r.navigation
      ensures validation == old(validation)
      ensures isLoading == (!old(validation).isValid && old(isLoading))
    {
      request, navigation := None, None;
      if !validation.isValid {
        errors := ErrorOn("password", Str(InvalidPasswordMessage));
        return;
      }
      isLoading := true;
      errors := Obj([]);
      var encrypted := Obfuscation.EncryptPassword(values.password);
      if encrypted.None? {
        errors := ErrorOn("email", Str(ConnectionError));
      } else {
        request := Some(RegisterRequest(values.firstName, values.lastName, values.email, encrypted.value));
        var shown := AfterReply(reply);
        errors, navigation := shown.errors, shown.navigation;
      }
      isLoading := false;
    }
  }
}
