/** The auction-creation form: the field-by-field validator, the submit handler with its reset
    after a successful create, and the sanitiser on the Starting Price input. */
module AuctionForm {
  import opened Wrappers
  import opened Text
  import Lists
  import opened NotificationsProvider

  datatype Field = TitleField | DescriptionField | StartingPriceField | CategoryField
                 | StartTimeField | EndTimeField

  /** The values of the form's input cells. Times are epoch milliseconds; `None` is a cleared
      date picker. */
  datatype FormValues = FormValues(
    title: string,
    description: string,
    startingPrice: string,
    categoryId: string,
    startTime: Option<int>,
    endTime: Option<int>)

  // ---------------------------------------------------------------- validate

  const TitleRequired: string := "Title is required"
  const TitleTooLong: string := "Title cannot exceed 100 characters"
  const DescriptionRequired: string := "Description is required"
  const DescriptionTooLong: string := "Description cannot exceed 500 characters"
  const PriceRequired: string := "Starting price is required"
  const PriceNotPositive: string := "Starting price must be greater than 0"
  const CategoryRequired: string := "Category is required"
  const StartTimeRequired: string := "Start time is required"
  const EndTimeRequired: string := "End time is required"
  const EndNotAfterStart: string := "End time must be after start time"

  /** The title and description rule: blank after trimming, else longer than the limit
      (measured on the untrimmed text). */
  function TextRule(s: string, limit: nat, required: string, tooLong: string): Option<string> {
    if IsBlank(s) then Some(required) else if |s| > limit then Some(tooLong) else None
  }

  /** The message `validate` records for one field, if any. `price` is `Number(startingPrice)`,
      `None` when that is NaN. */
  function FieldError(v: FormValues, price: Option<real>, f: Field): Option<string> {
    match f
    case TitleField =>
      TextRule(v.title, 100, TitleRequired, TitleTooLong)
    case DescriptionField =>
      TextRule(v.description, 500, DescriptionRequired,
               DescriptionTooLong)
    case StartingPriceField =>
      if v.startingPrice == "" then Some(PriceRequired)
      else if price.None? || price.value <= 0.0 then Some(PriceNotPositive)
      else None
    case CategoryField =>
      if v.categoryId == "" then Some(CategoryRequired) else None
    case StartTimeField =>
      if v.startTime.None? then Some(StartTimeRequired) else None
    case EndTimeField =>
      if v.endTime.None? then Some(EndTimeRequired)
      else if v.startTime.Some? && v.endTime.value <= v.startTime.value then
        Some(EndNotAfterStart)
      else None
  }

  /** `errors` with `f`'s message recorded, if it has one. */
  function Put(errors: map<Field, string>, f: Field, message: Option<string>): map<Field, string> {
    if message.Some? then errors[f := message.value] else errors
  }

  /** The error map `validate` builds: one entry per field whose rule fires. */
  function ValidationErrors(v: FormValues, price: Option<real>): map<Field, string> {
    Put(Put(Put(Put(Put(Put(map[],
      TitleField, FieldError(v, price, TitleField)),
      DescriptionField, FieldError(v, price, DescriptionField)),
      StartingPriceField, FieldError(v, price, StartingPriceField)),
      CategoryField, FieldError(v, price, CategoryField)),
      StartTimeField, FieldError(v, price, StartTimeField)),
      EndTimeField, FieldError(v, price, EndTimeField))
  }

  /** The error map holds a field's message exactly when that field's rule fires. */
  lemma ValidationErrorsPerField(v: FormValues, price: Option<real>, f: Field)
    ensures f in ValidationErrors(v, price) <==> FieldError(v, price, f).Some?
    ensures f in ValidationErrors(v, price) ==> ValidationErrors(v, price)[f] == FieldError(v, price, f).value
  {
  }

  /** A form the server can be sent, stated field by field. */
  predicate Acceptable(v: FormValues, price: Option<real>) {
    && !IsBlank(v.title) && |v.title| <= 100
    && !IsBlank(v.description) && |v.description| <= 500
    && v.startingPrice != "" && price.Some? && price.value > 0.0
    && v.categoryId != ""
    && v.startTime.Some? && v.endTime.Some? && v.startTime.value < v.endTime.value
  }

  /** No error recorded exactly when the form is acceptable. */
  lemma NoErrorsIffAcceptable(v: FormValues, price: Option<real>)
    ensures ValidationErrors(v, price).Keys == {} <==> Acceptable(v, price)
  {
    var errors := ValidationErrors(v, price);
    forall f ensures f in errors <==> FieldError(v, price, f).Some? {
      ValidationErrorsPerField(v, price, f);
    }
    if errors.Keys == {} {
      assert TitleField !in errors && DescriptionField !in errors && StartingPriceField !in errors;
      assert CategoryField !in errors && StartTimeField !in errors && EndTimeField !in errors;
    } else {
      var f :| f in errors;
      assert FieldError(v, price, f).Some?;
    }
  }

  /** The end time gets the ordering error only when both times are set and end <= start; a
      missing start with a set end gives only the start error. */
  lemma OrderingErrorNeedsBothTimes(v: FormValues, price: Option<real>)
    ensures var errors := ValidationErrors(v, price);
      && (v.startTime.None? ==> errors[StartTimeField] == StartTimeRequired)
      && (v.startTime.None? && v.endTime.Some? ==> EndTimeField !in errors)
      && (v.startTime.Some? && v.endTime.Some? ==>
            (EndTimeField in errors <==> v.endTime.value <= v.startTime.value))
  {
  }

  /** `validate()`: fills a fresh error dictionary field by field and reports whether it stayed
      empty. */
  method Validate(v: FormValues, price: Option<real>) returns (errors: map<Field, string>, valid: bool)
    ensures errors == ValidationErrors(v, price)
    ensures valid <==> errors.Keys == {}
    ensures valid <==> Acceptable(v, price)
  {
    errors := map[];
    ghost var expected: map<Field, string> := map[];
    var message: Option<string> := None;
    if IsBlank(v.title) {
      message := Some(TitleRequired);
    } else if |v.title| > 100 {
      message := Some(TitleTooLong);
    }
    assert message == FieldError(v, price, TitleField);
    errors := Put(errors, TitleField, message);
    expected := Put(expected, TitleField, FieldError(v, price, TitleField));
    assert errors == expected;
    message := None;
    if IsBlank(v.description) {
      message := Some(DescriptionRequired);
    } else if |v.description| > 500 {
      message := Some(DescriptionTooLong);
    }
    assert message == FieldError(v, price, DescriptionField);
    errors := Put(errors, DescriptionField, message);
    expected := Put(expected, DescriptionField, FieldError(v, price, DescriptionField));
    assert errors == expected;
    message := None;
    if v.startingPrice == "" {
      message := Some(PriceRequired);
    } else if price.None? || price.value <= 0.0 {
      message := Some(PriceNotPositive);
    }
    assert message == FieldError(v, price, StartingPriceField);
    errors := Put(errors, StartingPriceField, message);
    expected := Put(expected, StartingPriceField, FieldError(v, price, StartingPriceField));
    assert errors == expected;
    message := None;
    if v.categoryId == "" {
      message := Some(CategoryRequired);
    }
    assert message == FieldError(v, price, CategoryField);
    errors := Put(errors, CategoryField, message);
    expected := Put(expected, CategoryField, FieldError(v, price, CategoryField));
    assert errors == expected;
    message := None;
    if v.startTime.None? {
      message := Some(StartTimeRequired);
    }
    assert message == FieldError(v, price, StartTimeField);
    errors := Put(errors, StartTimeField, message);
    expected := Put(expected, StartTimeField, FieldError(v, price, StartTimeField));
    assert errors == expected;
    message := None;
    if v.endTime.None? {
      message := Some(EndTimeRequired);
    } else if v.startTime.Some? && v.endTime.value <= v.startTime.value {
      message := Some(EndNotAfterStart);
    }
    assert message == FieldError(v, price, EndTimeField);
    errors := Put(errors, EndTimeField, message);
    expected := Put(expected, EndTimeField, FieldError(v, price, EndTimeField));
    assert errors == expected;
    valid := |errors.Keys| == 0;
    NoErrorsIffAcceptable(v, price);
  }

  // ---------------------------------------------------------------- handleSubmit

  /** The body `createAuction` posts (its `bids` and `images` are always empty lists). */
  datatype NewAuction = NewAuction(
    title: string, description: string, startingPrice: real, categoryId: string,
    startTime: int, endTime: int)

  /** What a submit did beyond the form's own cells. */
  datatype SubmitEffects = SubmitEffects(
    createRequest: Option<NewAuction>,
    uploadRequested: bool,
    alerts: seq<string>,
    notices: seq<Notice>,
    createdCallback: bool)

  const LoginRequired: string := "You must be logged in to create an auction."
  const UserIdMissing: string := "User ID is missing."
  const CreateFailed: Notice := Notice("Failed to create auction", Error)
  const UploadFailed: Notice := Notice("Auction created, but image upload failed", Error)
  const Created: Notice := Notice("Auction created successfully!", Success)

  /** The body posted for the form's values (its time fields are set when it is acceptable). */
  function Request(v: FormValues, price: Option<real>): NewAuction
    requires Acceptable(v, price)
  {
    NewAuction(v.title, v.description, price.value, v.categoryId, v.startTime.value, v.endTime.value)
  }

  /** What one submit of the values `v`, with `image` chosen, does. `price` is
      `Number(startingPrice)`, `None` when NaN; the other parameters are as in `CreateResult`. */
  function SubmitResult(v: FormValues, image: Option<string>, price: Option<real>,
                        isAuthenticated: bool, tokenOk: bool, hasUserId: bool,
                        created: Option<string>, uploadOk: bool): SubmitEffects
  {
    if !Acceptable(v, price) then SubmitEffects(None, false, [], [], false)
    else if !isAuthenticated then SubmitEffects(None, false, [LoginRequired], [], false)
    else CreateResult(Request(v, price), image, tokenOk, hasUserId, created, uploadOk)
  }

  /** What the `try` block of a submit does with the body `request`: `tokenOk` is whether the
      access token was obtained; `hasUserId` whether the signed-in user has an id; `created` the
      id `createAuction` returned ("" when it carried none), or `None` when the call failed;
      `uploadOk` whether the image upload succeeded. */
  function CreateResult(request: NewAuction, image: Option<string>, tokenOk: bool, hasUserId: bool,
                        created: Option<string>, uploadOk: bool): SubmitEffects
  {
    if !tokenOk then SubmitEffects(None, false, [], [CreateFailed], false)
    else if !hasUserId then SubmitEffects(None, false, [UserIdMissing], [], false)
    else if created.None? then SubmitEffects(Some(request), false, [], [CreateFailed], false)
    else
      var upload := image.Some? && created.value != "";
      var uploadNotice := if upload && !uploadOk then [UploadFailed] else [];
      SubmitEffects(Some(request), upload, [], uploadNotice + [Created], true)
  }

  /** The auction is posted exactly when the values pass validation, the user is signed in, the
      token is obtained and the user has an id; the body carries the form's values. */
  lemma SubmitPostsOnlyValidForms(v: FormValues, image: Option<string>, price: Option<real>,
                                  isAuthenticated: bool, tokenOk: bool, hasUserId: bool,
                                  created: Option<string>, uploadOk: bool)
    ensures var fx := SubmitResult(v, image, price, isAuthenticated, tokenOk, hasUserId, created, uploadOk);
      && (fx.createRequest.Some? <==> ValidationErrors(v, price).Keys == {} && isAuthenticated && tokenOk && hasUserId)
      && (fx.createRequest.Some? ==>
            var r := fx.createRequest.value;
            && r.title == v.title && r.description == v.description && r.categoryId == v.categoryId
            && Some(r.startingPrice) == price && r.startingPrice > 0.0
            && Some(r.startTime) == v.startTime && Some(r.endTime) == v.endTime
            && r.startTime < r.endTime)
  {
    NoErrorsIffAcceptable(v, price);
  }

  /** The form is cleared and `onCreated` fires exactly when the create call succeeded; then the
      success notice comes last, after an upload-failure notice when an upload was tried and
      failed. A rejected form says nothing; every other submit shows exactly one message. */
  lemma SubmitReports(v: FormValues, image: Option<string>, price: Option<real>,
                      isAuthenticated: bool, tokenOk: bool, hasUserId: bool,
                      created: Option<string>, uploadOk: bool)
    ensures var fx := SubmitResult(v, image, price, isAuthenticated, tokenOk, hasUserId, created, uploadOk);
      && (fx.createdCallback <==> fx.createRequest.Some? && created.Some?)
      && (fx.createdCallback ==> fx.alerts == [] && fx.notices[|fx.notices| - 1] == Created)
      && (fx.uploadRequested <==> fx.createdCallback && image.Some? && created.value != "")
      && (UploadFailed in fx.notices <==> fx.uploadRequested && !uploadOk)
      && (CreateFailed in fx.notices <==>
            Acceptable(v, price) && isAuthenticated && (!tokenOk || (hasUserId && created.None?)))
      && (!Acceptable(v, price) ==> fx.alerts == [] && fx.notices == [])
      && (Acceptable(v, price) && !fx.createdCallback ==> |fx.alerts| + |fx.notices| == 1)
  {
  }

  /** What the snackbar is left showing after a submit's `notify` calls, issued in order through
      `snackbar`. The upload-failure notice is issued, then overwritten in the same continuation
      by the success notice, so after a create the user sees only the success; a submit that did
      not create shows its failure notice, if it issued one. */
  method ShowSubmitNotices(snackbar: Notifications, v: FormValues, image: Option<string>,
                           price: Option<real>, isAuthenticated: bool, tokenOk: bool,
                           hasUserId: bool, created: Option<string>, uploadOk: bool)
    returns (fx: SubmitEffects)
    modifies snackbar
    ensures fx == SubmitResult(v, image, price, isAuthenticated, tokenOk, hasUserId, created, uploadOk)
    ensures fx.createdCallback ==> snackbar.Shown() == Some(Created)
    ensures fx.uploadRequested && !uploadOk ==>
      UploadFailed in fx.notices && snackbar.Shown() == Some(Created)
    ensures !fx.createdCallback && fx.notices != [] ==> snackbar.Shown() == Some(CreateFailed)
    ensures fx.notices == [] ==> snackbar.Shown() == old(snackbar.Shown())
  {
    fx := SubmitResult(v, image, price, isAuthenticated, tokenOk, hasUserId, created, uploadOk);
    SubmitReports(v, image, price, isAuthenticated, tokenOk, hasUserId, created, uploadOk);
    snackbar.NotifyEach(fx.notices);
  }

  class AuctionFormView {
    var title: string
    var description: string
    var startingPrice: string
    var categoryId: string
    var startTime: Option<int>
    var endTime: Option<int>
    var errors: map<Field, string>
    var imageFile: Option<string>
    var loading: bool
    var imageUploading: bool

    function Values(): FormValues
      reads this`title, this`description, this`startingPrice, this`categoryId,
            this`startTime, this`endTime
    {
      FormValues(title, description, startingPrice, categoryId, startTime, endTime)
    }

    /** The cleared form: what the form starts as and returns to after a create. */
    predicate Cleared()
      reads this`title, this`description, this`startingPrice, this`categoryId,
            this`startTime, this`endTime, this`imageFile, this`errors
    {
      Values() == FormValues("", "", "", "", None, None) && imageFile == None && errors == map[]
    }

    constructor ()
      ensures Cleared() && !loading && !imageUploading
    {
      title, description, startingPrice, categoryId := "", "", "", "";
      startTime, endTime := None, None;
      errors := map[];
      imageFile := None;
      loading, imageUploading := false, false;
    }

    /** The inputs' `onChange` handlers. */
    method Fill(v: FormValues)
      modifies this`title, this`description, this`startingPrice, this`categoryId,
               this`startTime, this`endTime
      ensures Values() == v
    {
      title, description, startingPrice, categoryId := v.title, v.description, v.startingPrice, v.categoryId;
      startTime, endTime := v.startTime, v.endTime;
    }

    /** The file input's `onChange`: a chosen file replaces the current one; no file keeps it. */
    method ChooseImage(file: Option<string>)
      modifies this`imageFile
      ensures imageFile == if file.Some? then file else old(imageFile)
    {
      if file.Some? {
        imageFile := file;
      }
    }

    /** `handleSubmit`, triggered by the Create button, which is disabled while either flag is up.
        The outcomes of the calls it awaits are parameters, as in `SubmitResult`. */
    method HandleSubmit(price: Option<real>, isAuthenticated: bool, tokenOk: bool, hasUserId: bool,
                        created: Option<string>, uploadOk: bool)
      returns (fx: SubmitEffects)
      requires !loading && !imageUploading
      modifies this
      ensures fx == SubmitResult(old(Values()), old(imageFile), price, isAuthenticated, tokenOk,
                                 hasUserId, created, uploadOk)
      ensures fx.createdCallback ==> Cleared()
      ensures !fx.createdCallback ==>
        Values() == old(Values()) && imageFile == old(imageFile)
        && errors == ValidationErrors(old(Values()), price)
      ensures !loading && !imageUploading
    {
      var v := Values();
      var valid;
      errors, valid := Validate(v, price);
      if !valid {
        fx := SubmitEffects(None, false, [], [], false);
      } else if !isAuthenticated {
        fx := SubmitEffects(None, false, [LoginRequired], [], false);
      } else {
        fx := Create(Request(v, price), tokenOk, hasUserId, created, uploadOk);
      }
    }

    /** The `try` block of `handleSubmit`, entered with validated values and a signed-in user. */
    method Create(request: NewAuction, tokenOk: bool, hasUserId: bool,
                  created: Option<string>, uploadOk: bool)
      returns (fx: SubmitEffects)
      requires !imageUploading
      modifies this
      ensures fx == CreateResult(request, old(imageFile), tokenOk, hasUserId, created, uploadOk)
      ensures fx.createdCallback ==> Cleared()
      ensures !fx.createdCallback ==>
        Values() == old(Values()) && imageFile == old(imageFile) && errors == old(errors)
      ensures !loading && !imageUploading
    {
      loading := true;
      if !tokenOk {
        fx := SubmitEffects(None, false, [], [CreateFailed], false);
        loading := false;
        return;
      }
      if !hasUserId {
        fx := SubmitEffects(None, false, [UserIdMissing], [], false);
        loading := false;
        return;
      }
      if created.None? {
        fx := SubmitEffects(Some(request), false, [], [CreateFailed], false);
        loading := false;
        return;
      }
      var auctionId := created.value;
      var uploaded := false;
      var notices: seq<Notice> := [];
      if imageFile.Some? && auctionId != "" {
        imageUploading := true;
        uploaded := true;
        if !uploadOk {
          notices := [UploadFailed];
        }
        imageUploading := false;
      }
      title, description, startingPrice, categoryId := "", "", "", "";
      startTime, endTime := None, None;
      imageFile := None;
      errors := map[];
      fx := SubmitEffects(Some(request), uploaded, [], notices + [Created], true);
      loading := false;
    }
  }

  // ---------------------------------------------------------------- the price sanitiser

  predicate IsPriceChar(c: char) {
    IsDigit(c) || c == '.'
  }

  /** The digits of a string, in order. */
  function Digits(s: string): string {
    Lists.Filter(IsDigit, s)
  }

  predicate IsDot(c: char) {
    c == '.'
  }

  /** The number of dots in a string. */
  function CountDots(s: string): nat {
    |Lists.Filter(IsDot, s)|
  }

  lemma CountDotsAppend(a: string, b: string)
    ensures CountDots(a + b) == CountDots(a) + CountDots(b)
  {
    Lists.FilterAppend(IsDot, a, b);
  }

  /** A string has no dot exactly when it counts none. */
  lemma NoDotIffZero(s: string)
    ensures CountDots(s) == 0 <==> '.' !in s
  {
    Lists.FilterEmptyIffNonePass(IsDot, s);
    if '.' in s {
      var k :| 0 <= k < |s| && s[k] == '.';
      assert IsDot(s[k]);
    }
  }

  /** The last index holding `c`, if any. */
  function LastIndexOf(t: string, c: char): (k: Option<nat>)
    ensures k.Some? ==> k.value < |t| && t[k.value] == c && forall j :: k.value < j < |t| ==> t[j] != c
    ensures k.None? ==> c !in t
  {
    if t == [] then None
    else if t[|t| - 1] == c then Some(|t| - 1)
    else LastIndexOf(t[..|t| - 1], c)
  }

  /** `.replace(/[^0-9.]/g, "")` */
  function StripNonPriceChars(s: string): string {
    Lists.Filter(IsPriceChar, s)
  }

  /** `.replace(/(\..*)\./g, "$1")`. The leftmost match starts at the first "." and, the `.*`
      being greedy, ends at the last one, so there is a match exactly when a "." precedes the
      last one; "$1" puts back all of the match but that last ".", and no "." is left after it
      for a second match. */
  function DropLastDot(t: string): string {
    match LastIndexOf(t, '.')
    case Some(j) => if '.' in t[..j] then t[..j] + t[j + 1..] else t
    case None => t
  }

  /** The Starting Price field's `onInput` rewrite. */
  function SanitisePrice(s: string): string {
    DropLastDot(StripNonPriceChars(s))
  }

  /** Deleting one character that is not a digit keeps the digits. */
  lemma DeleteKeepsDigits(t: string, j: nat)
    requires j < |t| && !IsDigit(t[j])
    ensures Digits(t[..j] + t[j + 1..]) == Digits(t)
  {
    var before, gone, after := t[..j], [t[j]], t[j + 1..];
    assert t == before + gone + after;
    calc {
      Digits(t);
    == { Lists.FilterAppend(IsDigit, before + gone, after); }
      Digits(before + gone) + Digits(after);
    == { Lists.FilterAppend(IsDigit, before, gone); }
      Digits(before) + Digits(gone) + Digits(after);
    == { assert Digits(gone) == []; }
      Digits(before) + Digits(after);
    == { Lists.FilterAppend(IsDigit, before, after); }
      Digits(before + after);
    }
  }

  /** Deleting one dot removes one from the count. */
  lemma DeleteDotCount(t: string, j: nat)
    requires j < |t| && t[j] == '.'
    ensures CountDots(t[..j] + t[j + 1..]) + 1 == CountDots(t)
      && CountDots(t) == CountDots(t[..j]) + 1 + CountDots(t[j + 1..])
  {
    var before, dot, after := t[..j], [t[j]], t[j + 1..];
    assert t == before + dot + after;
    CountDotsAppend(before + dot, after);
    CountDotsAppend(before, dot);
    CountDotsAppend(before, after);
    assert Lists.Filter(IsDot, dot) == dot;
  }

  /** Two or more dots exactly when a dot precedes the last one. */
  lemma TwoDotsIffEarlierDot(t: string)
    ensures CountDots(t) >= 2 <==>
      LastIndexOf(t, '.').Some? && '.' in t[..LastIndexOf(t, '.').value]
  {
    var last := LastIndexOf(t, '.');
    NoDotIffZero(t);
    if last.Some? {
      var j := last.value;
      DeleteDotCount(t, j);
      NoDotIffZero(t[..j]);
      var after := t[j + 1..];
      assert '.' !in after by {
        assert forall k :: 0 <= k < |after| ==> after[k] == t[j + 1 + k];
      }
      NoDotIffZero(after);
    }
  }

  /** The second rewrite only deletes: every character it leaves was in its input. */
  lemma DropLastDotDeletesOnly(t: string)
    ensures forall i :: 0 <= i < |DropLastDot(t)| ==> DropLastDot(t)[i] in t
  {
    var r := DropLastDot(t);
    if r != t {
      var j := LastIndexOf(t, '.').value;
      forall i | 0 <= i < |r| ensures r[i] in t {
        if i < j {
          assert r[i] == t[i];
        } else {
          assert r[i] == t[i + 1];
        }
      }
    }
  }

  /** The second rewrite keeps the digits and their order. */
  lemma DropLastDotKeepsDigits(t: string)
    ensures Digits(DropLastDot(t)) == Digits(t)
  {
    match LastIndexOf(t, '.')
    case None =>
    case Some(j) =>
      if '.' in t[..j] {
        assert !IsDigit(t[j]);
        DeleteKeepsDigits(t, j);
      }
  }

  /** The second rewrite removes one dot when there are two or more, and none otherwise. */
  lemma DropLastDotCount(t: string)
    ensures CountDots(DropLastDot(t)) == if CountDots(t) >= 2 then CountDots(t) - 1 else CountDots(t)
  {
    TwoDotsIffEarlierDot(t);
    if DropLastDot(t) != t {
      DeleteDotCount(t, LastIndexOf(t, '.').value);
    }
  }

  /** The first rewrite keeps every dot. */
  lemma StripKeepsDots(s: string)
    ensures CountDots(StripNonPriceChars(s)) == CountDots(s)
  {
    Lists.FilterAfterWeaker(IsDot, IsPriceChar, s);
  }

  /** The sanitised value holds only digits and dots, keeps every digit of the input in order,
      and keeps the dots of the input except that two or more lose the last one. */
  lemma SanitisePriceEffect(s: string)
    ensures forall i :: 0 <= i < |SanitisePrice(s)| ==> IsPriceChar(SanitisePrice(s)[i])
    ensures Digits(SanitisePrice(s)) == Digits(s)
    ensures var d := CountDots(s);
      CountDots(SanitisePrice(s)) == if d >= 2 then d - 1 else d
  {
    var t := StripNonPriceChars(s);
    DropLastDotDeletesOnly(t);
    DropLastDotKeepsDigits(t);
    DropLastDotCount(t);
    StripKeepsDots(s);
    Lists.FilterAfterWeaker(IsDigit, IsPriceChar, s);
  }

  /** The first rewrite leaves a string of digits and dots as it is. */
  lemma StripKeepsPriceChars(t: string)
    requires forall i :: 0 <= i < |t| ==> IsPriceChar(t[i])
    ensures StripNonPriceChars(t) == t
  {
    Lists.FilterKeepsAll(IsPriceChar, t);
  }

  /** The second rewrite on "1.2.3.4": the last dot, at index 5, has dots before it. */
  lemma DropLastDotExample()
    ensures DropLastDot("1.2.3.4") == "1.2.34"
  {
    var t := "1.2.3.4";
    assert LastIndexOf(t, '.') == Some(5) by {
      var u := t[..6];
      assert t[6] == '4' && u[5] == '.';
      assert LastIndexOf(t, '.') == LastIndexOf(u, '.');
    }
    assert t[..5][1] == '.';
    assert t[..5] + t[6..] == "1.2.34";
  }

  /** The example of a value with several dots: "1.2.3.4" becomes "1.2.34". */
  lemma SanitiseExample()
    ensures SanitisePrice("1.2.3.4") == "1.2.34"
  {
    StripKeepsPriceChars("1.2.3.4");
    DropLastDotExample();
  }

  /** Since the rewrite runs on every input event, a value with at most one dot keeps at most
      one after a single character is typed anywhere into it. */
  lemma OneKeystrokeKeepsOneDot(s: string, k: nat, c: char)
    requires k <= |s| && CountDots(s) <= 1
    ensures CountDots(SanitisePrice(s[..k] + [c] + s[k..])) <= 1
  {
    assert s == s[..k] + s[k..];
    CountDotsAppend(s[..k], s[k..]);
    CountDotsAppend(s[..k] + [c], s[k..]);
    CountDotsAppend(s[..k], [c]);
    assert CountDots([c]) <= 1;
    SanitisePriceEffect(s[..k] + [c] + s[k..]);
  }
}
