/** src/pages/user/Deposit.tsx: which dropped files the drop zone accepts
    and which message a rejection shows, the validation cascade of the
    submit handler, and the page state the handlers set. The drop zone's
    acceptance rule is the one its library applies to the `accept` map
    (any `image/` subtype, or the extensions .jpeg, .jpg and .png): a file
    passes when its type's base is `image` or its name ends in a listed
    extension, ignoring case. */
module DepositForm {
  import opened Base
  import opened Models
  import opened Persistence
  import opened Text
  import DepositRoutes

  /** A dropped file: its name, its MIME type ("" when unknown) and size. */
  datatype File = File(name: string, mime: string, size: nat)

  const MaxSize: nat := 5242880
  const Extensions: seq<string> := [".jpeg", ".jpg", ".png"]

  /** The MIME type up to its first '/'. */
  function MimeBase(m: string): (r: string)
    ensures r <= m && '/' !in r
  {
    if m == [] || m[0] == '/' then [] else [m[0]] + MimeBase(m[1..])
  }

  predicate EndsWith(s: string, suffix: string)
  {
    |suffix| <= |s| && s[|s| - |suffix|..] == suffix
  }

  /** The name ends in one of the listed extensions, ignoring case. */
  predicate HasListedExtension(name: string)
  {
    var n := Lower(name);
    EndsWith(n, Extensions[0]) || EndsWith(n, Extensions[1]) || EndsWith(n, Extensions[2])
  }

  predicate Accepts(f: File)
  {
    MimeBase(Lower(f.mime)) == "image" || HasListedExtension(f.name)
  }

  datatype DropError = FileInvalidType | FileTooLarge

  /** A file's errors, the type before the size. */
  function Errors(f: File): (es: seq<DropError>)
    ensures es == [] <==> Accepts(f) && f.size <= MaxSize
    ensures es != [] ==> (es[0] == FileTooLarge <==> Accepts(f))
  {
    (if Accepts(f) then [] else [FileInvalidType]) + (if f.size > MaxSize then [FileTooLarge] else [])
  }

  /** The dropped files without errors, in order. */
  function Accepted(files: seq<File>): (r: seq<File>)
    ensures |r| <= |files|
  {
    if files == [] then []
    else (if Errors(files[0]) == [] then [files[0]] else []) + Accepted(files[1..])
  }

  /** The dropped files with errors, in order. */
  function Rejected(files: seq<File>): (r: seq<File>)
    ensures |r| <= |files|
  {
    if files == [] then []
    else (if Errors(files[0]) != [] then [files[0]] else []) + Rejected(files[1..])
  }

  lemma {:induction false} AcceptedMembers(files: seq<File>)
    ensures forall f :: f in Accepted(files) <==> f in files && Errors(f) == []
  {
    if files != [] {
      AcceptedMembers(files[1..]);
      assert files == [files[0]] + files[1..];
    }
  }

  lemma {:induction false} RejectedMembers(files: seq<File>)
    ensures forall f :: f in Rejected(files) <==> f in files && Errors(f) != []
  {
    if files != [] {
      RejectedMembers(files[1..]);
      assert files == [files[0]] + files[1..];
    }
  }

  /** The first refused file has an error to report. */
  lemma FirstRejectedFails(files: seq<File>)
    requires Rejected(files) != []
    ensures Errors(Rejected(files)[0]) != []
  {
    RejectedMembers(files);
    assert Rejected(files)[0] in Rejected(files);
  }

  /** Each dropped file lands on exactly one side. */
  lemma {:induction false} DropPartition(files: seq<File>)
    ensures |Accepted(files)| + |Rejected(files)| == |files|
  {
    if files != [] {
      DropPartition(files[1..]);
    }
  }

  const TooLargeMessage := "File is too large. Maximum size is 5MB."
  const FileTypeMessage := "Please upload a valid image file (JPG, JPEG, PNG)."

  /** `onDropRejected`: the first error of the first rejected file (only
      rejected files reach it, see `RejectionMessages`). */
  function RejectionMessage(f: File): string
  {
    if Errors(f) != [] && Errors(f)[0] == FileTooLarge then TooLargeMessage else FileTypeMessage
  }

  /** The size message appears exactly for files of an accepted type that
      are over 5242880 bytes; a file wrong on both counts gets the type
      message. */
  lemma RejectionMessages(f: File)
    requires Errors(f) != []
    ensures RejectionMessage(f) == TooLargeMessage <==> Accepts(f) && f.size > MaxSize
    ensures RejectionMessage(f) == FileTypeMessage <==> !Accepts(f)
  {
  }

  /** The base of a type is everything before its first '/'. */
  lemma {:induction false} MimeBaseOfPrefix(base: string, sub: string)
    requires '/' !in base
    ensures MimeBase(base + "/" + sub) == base
  {
    if base != [] {
      assert (base + "/" + sub)[1..] == base[1..] + "/" + sub;
      MimeBaseOfPrefix(base[1..], sub);
    }
  }

  /** Any `image/` type is admitted whatever the file's name, and only the
      size can refuse it. */
  lemma ImageTypesAccepted(f: File, sub: string)
    requires Lower(f.mime) == "image/" + sub
    ensures Accepts(f)
    ensures Errors(f) == [] <==> f.size <= MaxSize
  {
    assert "image/" + sub == "image" + "/" + sub;
    MimeBaseOfPrefix("image", sub);
  }

  /** A name ending in a listed extension, in any case, is admitted whatever
      the file's type, even an unknown one. */
  lemma ListedExtensionsAccepted(f: File, e: string)
    requires e in Extensions && EndsWith(Lower(f.name), e)
    ensures Accepts(f)
    ensures Errors(f) == [] <==> f.size <= MaxSize
  {
  }

  /** Lower-casing keeps the '/' that separates a type's base. */
  lemma LowerSplitsAtSlash(base: string, sub: string)
    requires '/' !in base
    ensures Lower(base + "/" + sub) == Lower(base) + "/" + Lower(sub)
    ensures '/' !in Lower(base)
  {
    var whole := base + "/" + sub;
    assert forall k :: 0 <= k < |whole| ==>
      Lower(whole)[k] == (Lower(base) + "/" + Lower(sub))[k] by {
      forall k | 0 <= k < |whole|
        ensures Lower(whole)[k] == (Lower(base) + "/" + Lower(sub))[k]
      {
        if k < |base| {
          assert whole[k] == base[k];
        } else if k > |base| {
          assert whole[k] == sub[k - |base| - 1];
        }
      }
    }
    forall k | 0 <= k < |base| ensures Lower(base)[k] != '/' {
      assert base[k] != '/';
    }
  }

  lemma NoListedExtension(name: string)
    requires forall e :: e in Extensions ==> !EndsWith(Lower(name), e)
    ensures !HasListedExtension(name)
  {
    assert Extensions[0] in Extensions && Extensions[1] in Extensions && Extensions[2] in Extensions;
  }

  /** A file whose type has another base, or no type, and whose name ends in
      none of the extensions is refused as to type, first. */
  lemma OtherFilesRefused(f: File, base: string, sub: string)
    requires f.mime == "" || ('/' !in base && Lower(base) != "image" && f.mime == base + "/" + sub)
    requires forall e :: e in Extensions ==> !EndsWith(Lower(f.name), e)
    ensures !Accepts(f)
    ensures Errors(f) != [] && Errors(f)[0] == FileInvalidType
  {
    NoListedExtension(f.name);
    if f.mime != "" {
      LowerSplitsAtSlash(base, sub);
      MimeBaseOfPrefix(Lower(base), Lower(sub));
    }
  }

  /** The multipart body of POST /deposit. */
  datatype Payload = Payload(amount: JsNumber, paymentMethod: string, screenshot: File)

  /** The checks of `handleSubmit`, in order. */
  function Validate(selected: Option<string>, amount: string, parsed: JsNumber, file: Option<File>): Result<Payload, string>
  {
    if selected.None? then Failure("Please select a payment method")
    else if amount == "" || (parsed.Num? && parsed.value <= 0.0) then Failure("Please enter a valid amount")
    else if file.None? then Failure("Please upload a proof of payment")
    else Success(Payload(parsed, selected.value, file.value))
  }

  /** The form submits exactly when a method is chosen, the amount is not
      empty nor at most 0, and a file is held; it then sends those three. The
      method is checked first. */
  lemma ValidationPasses(selected: Option<string>, amount: string, parsed: JsNumber, file: Option<File>)
    ensures Validate(selected, amount, parsed, file).Success? <==>
      selected.Some? && amount != "" && !(parsed.Num? && parsed.value <= 0.0) && file.Some?
    ensures Validate(selected, amount, parsed, file).Success? ==>
      Validate(selected, amount, parsed, file).value == Payload(parsed, selected.value, file.value)
    ensures selected.None? ==> Validate(selected, amount, parsed, file) == Failure("Please select a payment method")
    ensures selected.Some? && amount != "" && parsed.Num? && parsed.value > 0.0 && file.None? ==>
      Validate(selected, amount, parsed, file) == Failure("Please upload a proof of payment")
  {
  }

  /** The page lets through any positive amount, but the deposit route's
      schema refuses one below the minimum and stores nothing. */
  lemma BelowMinimumReachesServer(r: Rules, db: Db, caller: UserId, text: string, x: real, f: File,
                                  storedPath: string, now: int)
    requires caller < |db.users|
    requires text != "" && 0.0 < x < MinAmount
    ensures var p := Validate(Some("easypaisa"), text, Num(x), Some(f));
      && p.Success?
      && DepositRoutes.SubmitDeposit(r, db, caller, p.value.amount.value, p.value.paymentMethod, Some(storedPath), now)
         == Outcome(Err(SchemaViolation), db)
  {
  }

  /** A validated form for at least the minimum, with one of the schema's
      methods and the upload stored, creates the pending deposit. */
  lemma ValidFormIsStored(r: Rules, db: Db, caller: UserId, selected: Option<string>, amount: string,
                          parsed: JsNumber, file: Option<File>, storedPath: string, now: int)
    requires r == AsWritten || r == Intended
    requires caller < |db.users| && storedPath != ""
    requires Validate(selected, amount, parsed, file).Success?
    requires parsed.Num? && parsed.value >= MinAmount && selected.value in PaymentMethods
    ensures var o := DepositRoutes.SubmitDeposit(r, db, caller, parsed.value, selected.value, Some(storedPath), now);
      && o.reply == Ok(201)
      && o.db.deposits == db.deposits + [NewDeposit(caller, parsed.value, selected.value, storedPath)]
  {
    DefaultsArePending(caller, parsed.value, selected.value, storedPath);
  }

  const SubmittedMessage :=
    "Your deposit request has been submitted successfully. It will be reviewed by our admin team shortly."

  /** The page's state; `preview` stands for the object URL made from the
      file it names. */
  class DepositPage {
    var selectedMethod: Option<string>
    var uploadedFile: Option<File>
    var preview: Option<File>
    var error: Option<string>
    var success: Option<string>
    var isSubmitting: bool

    constructor ()
      ensures selectedMethod == None && uploadedFile == None && preview == None
      ensures error == None && success == None && !isSubmitting
    {
      selectedMethod, uploadedFile, preview := None, None, None;
      error, success, isSubmitting := None, None, false;
    }

    /** `handleMethodSelect`. */
    method SelectMethod(m: string)
      modifies this
      ensures selectedMethod == Some(m) && error == None
      ensures uploadedFile == old(uploadedFile) && preview == old(preview)
      ensures success == old(success) && isSubmitting == old(isSubmitting)
    {
      selectedMethod := Some(m);
      error := None;
    }

    /** A drop: `onDrop` keeps the first accepted file and clears the error,
        then `onDropRejected`, when any file was refused, sets the message
        for the first refused one. */
    method Drop(files: seq<File>)
      modifies this
      ensures var ok := Accepted(files); var bad := Rejected(files);
        && (ok != [] ==> uploadedFile == Some(ok[0]) && preview == Some(ok[0]))
        && (ok == [] ==> uploadedFile == old(uploadedFile) && preview == old(preview))
        && (bad != [] ==> error == Some(RejectionMessage(bad[0])))
        && (bad == [] && ok != [] ==> error == None)
        && (bad == [] && ok == [] ==> error == old(error))
      ensures selectedMethod == old(selectedMethod) && success == old(success) && isSubmitting == old(isSubmitting)
    {
      var ok := Accepted(files);
      if |ok| > 0 {
        uploadedFile := Some(ok[0]);
        preview := Some(ok[0]);
        error := None;
      }
      var bad := Rejected(files);
      if |bad| > 0 {
        FirstRejectedFails(files);
        error := Some(RejectionMessage(bad[0]));
      }
    }

    /** The checks, then `isSubmitting` on and the error cleared. */
    method BeginSubmit(amount: string, parsed: JsNumber) returns (sent: Option<Payload>)
      modifies this
      ensures selectedMethod == old(selectedMethod) && uploadedFile == old(uploadedFile)
      ensures preview == old(preview) && success == old(success)
      ensures match Validate(old(selectedMethod), amount, parsed, old(uploadedFile))
        case Failure(m) => sent == None && error == Some(m) && isSubmitting == old(isSubmitting)
        case Success(p) => sent == Some(p) && error == None && isSubmitting
    {
      if selectedMethod.None? {
        error := Some("Please select a payment method");
        return None;
      }
      if amount == "" || (parsed.Num? && parsed.value <= 0.0) {
        error := Some("Please enter a valid amount");
        return None;
      }
      if uploadedFile.None? {
        error := Some("Please upload a proof of payment");
        return None;
      }
      isSubmitting := true;
      error := None;
      sent := Some(Payload(parsed, selectedMethod.value, uploadedFile.value));
    }

    /** The request's outcome, then `isSubmitting` off. */
    method FinishSubmit(reply: ApiReply)
      requires isSubmitting
      modifies this
      ensures !isSubmitting
      ensures selectedMethod == old(selectedMethod) && uploadedFile == old(uploadedFile) && preview == old(preview)
      ensures reply.Answered? ==> success == Some(SubmittedMessage) && error == old(error)
      ensures reply.Refused? ==>
        success == old(success)
        && error == Some(MessageOr(reply.message, "Failed to submit deposit request. Please try again."))
    {
      if reply.Answered? {
        success := Some(SubmittedMessage);
      } else {
        error := Some(MessageOr(reply.message, "Failed to submit deposit request. Please try again."));
      }
      isSubmitting := false;
    }

    /** `handleSubmit`: the checks, the request when they pass, and
        `isSubmitting` off again once the handler returns. */
    method HandleSubmit(amount: string, parsed: JsNumber, reply: ApiReply) returns (sent: Option<Payload>)
      requires !isSubmitting
      modifies this
      ensures !isSubmitting
      ensures selectedMethod == old(selectedMethod) && uploadedFile == old(uploadedFile) && preview == old(preview)
      ensures var v := Validate(old(selectedMethod), amount, parsed, old(uploadedFile));
        && sent == (if v.Success? then Some(v.value) else None)
        && (v.Failure? ==> error == Some(v.error) && success == old(success))
        && (v.Success? && reply.Answered? ==> error == None && success == Some(SubmittedMessage))
        && (v.Success? && reply.Refused? ==>
              error == Some(MessageOr(reply.message, "Failed to submit deposit request. Please try again."))
              && success == old(success))
    {
      sent := BeginSubmit(amount, parsed);
      if sent.Some? {
        FinishSubmit(reply);
      }
    }
  }
}
