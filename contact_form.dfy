/** The contact form's three error elements, whose text each validator
    overwrites. The input values are what the three fields hold when the
    validator runs. */
module ContactForm {
  import opened Validation

  class ErrorSlots {
    var nameError: string
    var emailError: string
    var messageError: string

    /** The error elements hold whatever text the page was served with. */
    constructor (initialName: string, initialEmail: string, initialMessage: string)
      ensures nameError == initialName && emailError == initialEmail && messageError == initialMessage
    {
      nameError, emailError, messageError := initialName, initialEmail, initialMessage;
    }

    /** `validateName`, run on each `input` event of the name field. */
    method ValidateName(name: string) returns (ok: bool)
      modifies this`nameError
      ensures ok == Validation.ValidateName(name).valid
      ensures nameError == Validation.ValidateName(name).message
      ensures ok <==> nameError == ""
      ensures emailError == old(emailError) && messageError == old(messageError)
    {
      var r := Validation.ValidateName(name);
      nameError := r.message;
      ok := r.valid;
    }

    /** `validateEmail`, run on each `input` event of the e-mail field. */
    method ValidateEmail(email: string) returns (ok: bool)
      modifies this`emailError
      ensures ok == Validation.ValidateEmail(email).valid
      ensures emailError == Validation.ValidateEmail(email).message
      ensures ok <==> emailError == ""
      ensures nameError == old(nameError) && messageError == old(messageError)
    {
      var r := Validation.ValidateEmail(email);
      emailError := r.message;
      ok := r.valid;
    }

    /** `validateMessage`, run on each `input` event of the message field. */
    method ValidateMessage(message: string) returns (ok: bool)
      modifies this`messageError
      ensures ok == Validation.ValidateMessage(message).valid
      ensures messageError == Validation.ValidateMessage(message).message
      ensures ok <==> messageError == ""
      ensures nameError == old(nameError) && emailError == old(emailError)
    {
      var r := Validation.ValidateMessage(message);
      messageError := r.message;
      ok := r.valid;
    }

    /** `validateForm`, run on submit: all three validators run, in order
        and without short-circuit, so every slot is rewritten from the
        current inputs whatever it held before, and the form is accepted
        exactly when all three slots end up empty. */
    method ValidateForm(name: string, email: string, message: string) returns (ok: bool)
      modifies this
      ensures ok == FormAccepts(name, email, message)
      ensures nameError == Validation.ValidateName(name).message
      ensures emailError == Validation.ValidateEmail(email).message
      ensures messageError == Validation.ValidateMessage(message).message
      ensures ok <==> nameError == "" && emailError == "" && messageError == ""
    {
      var isNameValid := ValidateName(name);
      var isEmailValid := ValidateEmail(email);
      var isMessageValid := ValidateMessage(message);
      ok := isNameValid && isEmailValid && isMessageValid;
    }
  }
}
