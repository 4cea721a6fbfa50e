/** The add-product form (app/add-product/page.jsx): whole-form and per-field
    validation, the error map, the Enter-key focus chain, the submit gate, the
    request payload, the classification of the server's answer and the
    category option lists. */
module AddProduct {
  import opened Wrappers
  import opened Text

  /** The inputs of the form, in the order they appear. */
  datatype Field = Name | Price | Description | Category | Subcategory | Image

  /** The one image file the form holds (the first file the picker returns). */
  datatype ImageFile = ImageFile(fileName: string, size: nat)

  /** The values of the six inputs. */
  datatype FormValues = FormValues(
    name: string,
    price: string,
    description: string,
    category: string,
    subcategory: string,
    imageFile: Option<ImageFile>)

  /** The form as it starts and as a successful submit leaves it. */
  const EmptyForm := FormValues("", "", "", "", "", None)

  /** `parseFloat`, given as a parameter: `None` stands for `NaN`. */
  type Parser = string -> Option<real>

  /* ---------------- validation ---------------- */

  /** The message each field shows when it fails. */
  function Message(f: Field): string {
    match f
    case Name => "Απαιτείται όνομα"
    case Price => "Εισάγετε έγκυρη τιμή"
    case Category => "Επιλέξτε κατηγορία"
    case Subcategory => "Επιλέξτε υποκατηγορία"
    case Description => "Απαιτείται περιγραφή"
    case Image => "Πρέπει να επιλέξετε εικόνα"
  }

  /** `!price || Number.isNaN(p) || p <= 0` with `p = parseFloat(price)`. */
  predicate PriceInvalid(price: string, parse: Parser) {
    price == "" || parse(price).None? || parse(price).value <= 0.0
  }

  /** Whether field `f` fails: the test `validateField(f)` applies
      (lines 103-113). */
  predicate Fails(f: Field, v: FormValues, parse: Parser) {
    match f
    case Name => Trim(v.name) == ""
    case Price => PriceInvalid(v.price, parse)
    case Category => v.category == ""
    case Subcategory => v.subcategory == ""
    case Description => v.description == "" || Trim(v.description) == ""
    case Image => v.imageFile.None?
  }

  /** The error `validateField(f)` finds for field `f`, if any. */
  function FieldError(f: Field, v: FormValues, parse: Parser): (r: Option<string>)
    ensures r.Some? <==> Fails(f, v, parse)
    ensures r.Some? ==> r.value == Message(f)
  {
    if Fails(f, v, parse) then Some(Message(f)) else None
  }

  /** One line of `validate()`: add the field's message when it fails. */
  function Check(e: map<Field, string>, f: Field, v: FormValues, parse: Parser): map<Field, string> {
    if Fails(f, v, parse) then e[f := Message(f)] else e
  }

  /** `validate()`'s checks in its own order. */
  function Chain(v: FormValues, parse: Parser): map<Field, string> {
    Check(Check(Check(Check(Check(Check(map[], Name, v, parse), Price, v, parse),
      Category, v, parse), Subcategory, v, parse), Description, v, parse), Image, v, parse)
  }

  lemma ChainHas(v: FormValues, parse: Parser, f: Field)
    ensures f in Chain(v, parse) <==> Fails(f, v, parse)
    ensures f in Chain(v, parse) ==> Chain(v, parse)[f] == Message(f)
  {
    match f
    case Name =>
    case Price =>
    case Category =>
    case Subcategory =>
    case Description =>
    case Image =>
  }

  lemma ChainIsUnion(v: FormValues, parse: Parser)
    ensures forall f :: f in Chain(v, parse) <==> Fails(f, v, parse)
    ensures forall f :: f in Chain(v, parse) ==> Chain(v, parse)[f] == Message(f)
  {
    forall f ensures (f in Chain(v, parse) <==> Fails(f, v, parse))
      && (f in Chain(v, parse) ==> Chain(v, parse)[f] == Message(f)) {
      ChainHas(v, parse, f);
    }
  }

  /** Whole-form validation. Its result is the union of the per-field
      results. */
  function Validation(v: FormValues, parse: Parser): (e: map<Field, string>)
    ensures forall f :: f in e <==> Fails(f, v, parse)
    ensures forall f :: f in e ==> e[f] == Message(f)
  {
    ChainIsUnion(v, parse);
    Chain(v, parse)
  }

  /** The keys `validate()` produces, stated in plain terms: `name` when it is
      only whitespace, `price` when it is empty, `NaN` or not positive,
      `category`/`subcategory` when empty, `description` when empty or only
      whitespace, `image` when no file is chosen. */
  lemma ValidationKeys(v: FormValues, parse: Parser)
    ensures Name in Validation(v, parse) <==> IsBlank(v.name)
    ensures Price in Validation(v, parse) <==>
      (v.price == "" || parse(v.price).None? || parse(v.price).value <= 0.0)
    ensures Category in Validation(v, parse) <==> v.category == ""
    ensures Subcategory in Validation(v, parse) <==> v.subcategory == ""
    ensures Description in Validation(v, parse) <==> IsBlank(v.description)
    ensures Image in Validation(v, parse) <==> v.imageFile.None?
  {
    TrimEmptyIffBlank(v.name);
    TrimEmptyIffBlank(v.description);
  }

  /** A fully filled-in, valid form passes validation. */
  lemma ValidExamplePasses(parse: Parser)
    requires parse("49.99") == Some(49.99)
    ensures Validation(FormValues("Mug", "49.99", "A mug", "Ρούχα", "Ανδρικά", Some(ImageFile("mug.png", 1024))), parse) == map[]
  {
    var v := FormValues("Mug", "49.99", "A mug", "Ρούχα", "Ανδρικά", Some(ImageFile("mug.png", 1024)));
    ValidationKeys(v, parse);
    assert !IsJsWhitespace(v.name[0]) && !IsJsWhitespace(v.description[0]);
  }

  /** The error map after `validateField(f)`: the entry for `f` is deleted,
      then set again if the field fails. */
  function SetFieldError(errors: map<Field, string>, f: Field, e: Option<string>): (r: map<Field, string>)
    ensures forall g :: g != f ==> (g in r <==> g in errors)
    ensures forall g :: g != f && g in r ==> r[g] == errors[g]
    ensures f in r <==> e.Some?
    ensures e.Some? ==> r[f] == e.value
  {
    if e.Some? then (errors - {f})[f := e.value] else errors - {f}
  }

  /** Validating the same field twice leaves the map as validating it once. */
  lemma SetFieldErrorTwice(errors: map<Field, string>, f: Field, e: Option<string>)
    ensures SetFieldError(SetFieldError(errors, f, e), f, e) == SetFieldError(errors, f, e)
  {
    var once := SetFieldError(errors, f, e);
    var twice := SetFieldError(once, f, e);
    assert twice.Keys == once.Keys;
  }

  /* ---------------- focus chain ---------------- */

  /** The inputs Enter walks through, in order. */
  const FocusOrder: seq<Field> := [Name, Price, Description, Category, Subcategory]

  /** `focusNext(current)`: the input that receives focus, or `None` when
      focus stays (subcategory submits instead; image has no successor). */
  function NextFocus(current: Field): (r: Option<Field>)
    ensures forall i :: 0 <= i < |FocusOrder| - 1 ==>
      (current == FocusOrder[i] <==> r == Some(FocusOrder[i + 1]))
    ensures r == None <==> current == Subcategory || current == Image
    ensures r != Some(Name) && r != Some(Image)
  {
    match current
    case Name => Some(Price)
    case Price => Some(Description)
    case Description => Some(Category)
    case Category => Some(Subcategory)
    case Subcategory => None
    case Image => None
  }

  /** A key press in the form. */
  datatype KeyEvent = KeyEvent(key: string, shiftKey: bool)

  /** The key presses `handleEnterKey` ignores: anything but Enter, and
      Shift+Enter in the description's text area. */
  predicate IgnoredKey(ev: KeyEvent, field: Field) {
    ev.key != "Enter" || (field == Description && ev.shiftKey)
  }

  /* ---------------- request and outcome ---------------- */

  /** The JSON `payload` part of the request. */
  datatype Payload = Payload(
    name: string,
    price: Option<real>,
    description: Option<string>,
    category: Option<string>,
    subCategory: Option<string>)

  /** The multipart request: the payload and, when chosen, the image. */
  datatype Request = Request(payload: Payload, image: Option<ImageFile>)

  /** `s || null` */
  function NullIfEmpty(s: string): (r: Option<string>)
    ensures r == None <==> s == ""
    ensures r.Some? ==> r.value == s
  {
    if s == "" then None else Some(s)
  }

  /** The request `submit()` sends (lines 176-189). `price` is `parseFloat`'s
      result; `NaN` goes out as JSON `null`. */
  function MakeRequest(v: FormValues, parse: Parser): Request {
    Request(
      Payload(v.name, parse(v.price), NullIfEmpty(v.description), NullIfEmpty(v.category), NullIfEmpty(v.subcategory)),
      v.imageFile)
  }

  /** A request leaves only for a form that passed validation, and then it
      carries a positive price, a description, category and subcategory
      (none of them null), the subcategory under `sub_category`, and the
      image. */
  lemma ValidFormRequest(v: FormValues, parse: Parser)
    requires Validation(v, parse) == map[]
    ensures var r := MakeRequest(v, parse);
      && r.payload.name == v.name
      && r.payload.price.Some? && r.payload.price.value > 0.0 && parse(v.price) == r.payload.price
      && r.payload.description == Some(v.description)
      && r.payload.category == Some(v.category)
      && r.payload.subCategory == Some(v.subcategory)
      && r.image.Some? && r.image == v.imageFile
  {
    assert Price !in Validation(v, parse) && Description !in Validation(v, parse);
    assert Category !in Validation(v, parse) && Subcategory !in Validation(v, parse);
    assert Image !in Validation(v, parse);
  }

  /** What the `fetch` call yields: a response with its status and whether its
      body could be read (`res.json()` on success, `res.text()` on a server
      error), or a network failure. */
  datatype HttpResult = Response(status: nat, bodyReadable: bool) | NetworkFailure

  datatype Outcome = Created | Unauthorized | ServerError(status: nat) | NetworkError

  /** The branches of lines 201-236. A body that cannot be read throws and
      lands in the `catch`, like a failed request. */
  function Classify(r: HttpResult): (o: Outcome)
    ensures o == Created <==> r.Response? && (r.status == 200 || r.status == 201) && r.bodyReadable
    ensures o == Unauthorized <==> r.Response? && r.status == 401
    ensures o.ServerError? <==> r.Response? && r.status != 200 && r.status != 201 && r.status != 401 && r.bodyReadable
    ensures o.ServerError? ==> o.status == r.status
  {
    match r
    case NetworkFailure => NetworkError
    case Response(status, readable) =>
      if status == 200 || status == 201 then (if readable then Created else NetworkError)
      else if status == 401 then Unauthorized
      else if readable then ServerError(status)
      else NetworkError
  }

  datatype ModalKind = SuccessModal | ErrorModal

  /** The modal the page opens after a submit. */
  datatype Modal = Modal(kind: ModalKind, title: string, message: string)

  const ServerErrorPrefix := "Server error: "

  function OutcomeModal(o: Outcome): (m: Modal)
    ensures m.kind == SuccessModal <==> o == Created
    ensures o.ServerError? ==>
      && |m.message| >= |ServerErrorPrefix|
      && m.message[..|ServerErrorPrefix|] == ServerErrorPrefix
      && ParseNat(m.message[|ServerErrorPrefix|..]) == Some(o.status)
  {
    match o
    case Created => Modal(SuccessModal, "Επιτυχία", "Το προϊόν δημιουργήθηκε με επιτυχία.")
    case Unauthorized => Modal(ErrorModal, "Μη εξουσιοδοτημένο", "Παρακαλώ συνδεθείτε ως διαχειριστής.")
    case ServerError(status) =>
      var text := ServerErrorPrefix + NatToString(status);
      assert text[|ServerErrorPrefix|..] == NatToString(status);
      ParseNatToString(status);
      Modal(ErrorModal, "Σφάλμα εξυπηρετητή", text)
    case NetworkError =>
      Modal(ErrorModal, "Σφάλμα δικτύου", "Το αίτημα απέτυχε. Δείτε την κονσόλα για λεπτομέρειες.")
  }

  /* ---------------- option lists ---------------- */

  /** `Object.keys(sampleCategories)`, in declaration order. */
  const SampleCategoryNames: seq<string> := ["Ηλεκτρονικά", "Ρούχα", "Υγεία"]

  /** `sampleCategories` */
  const SampleCategories: map<string, seq<string>> := map[
    "Ηλεκτρονικά" := ["Ακουστικά", "Ηχεία", "Αξεσουάρ"],
    "Ρούχα" := ["Ανδρικά", "Γυναικεία", "Παιδικά"],
    "Υγεία" := ["Συνταγές", "Συμπληρώματα"]]

  /** The category options: the server's list when it is non-empty, else the
      sample category names. There is always something to choose. */
  function CategoryOptions(server: seq<string>): (r: seq<string>)
    ensures server != [] ==> r == server
    ensures server == [] ==> forall c :: c in r <==> c in SampleCategories
    ensures |r| > 0
  {
    if |server| > 0 then server else SampleCategoryNames
  }

  /** The subcategory options: the server's list when it is non-empty, else
      the sample subcategories of the chosen category, else none. */
  function SubcategoryOptions(server: seq<string>, category: string): (r: seq<string>)
    ensures server != [] ==> r == server
    ensures server == [] && category in SampleCategories ==> r == SampleCategories[category]
    ensures server == [] && category !in SampleCategories ==> r == []
  {
    if |server| > 0 then server
    else if category != "" && category in SampleCategories then SampleCategories[category]
    else []
  }

  /** With neither list from the server, a subcategory can be offered only
      once a category that the fallback list offers is chosen. */
  lemma FallbackSubcategoriesNeedOfferedCategory(category: string, sub: string)
    requires sub in SubcategoryOptions([], category)
    ensures category in CategoryOptions([])
  {
  }

  /** `capitalizeDisplay` of this page: like the product list's, but `_` is
      kept. */
  function CapitalizeFirst(s: Option<string>): (r: Option<string>)
    ensures s.None? || s == Some("") ==> r == s
    ensures s.Some? && s.value != "" ==>
      r.Some? && r.value == [UpperChar(s.value[0])] + s.value[1..]
  {
    match s
    case None => None
    case Some(t) => if t == "" then s else Some([UpperChar(t[0])] + t[1..])
  }

  /** Capitalising twice is capitalising once. */
  lemma CapitalizeFirstIdempotent(s: Option<string>)
    ensures CapitalizeFirst(CapitalizeFirst(s)) == CapitalizeFirst(s)
  {
    if s.Some? && s.value != "" {
      UpperCharIdempotent(s.value[0]);
      assert CapitalizeFirst(s).value[1..] == s.value[1..];
    }
  }

  /* ---------------- the form state ---------------- */

  class AddProductPage {
    const parseFloat: Parser
    var name: string
    var price: string
    var description: string
    var category: string
    var subcategory: string
    var imageFile: Option<ImageFile>
    var errors: map<Field, string>
    var loading: bool
    var modal: Option<Modal>
    /** The input holding the keyboard focus (`None`: none of them). */
    var focused: Option<Field>
    var serverCategories: seq<string>
    var serverSubcategories: seq<string>

    constructor (parse: Parser)
      ensures parseFloat == parse && Values() == EmptyForm
      ensures errors == map[] && !loading && modal == None && focused == None
      ensures serverCategories == [] && serverSubcategories == []
    {
      parseFloat := parse;
      name, price, description, category, subcategory := "", "", "", "", "";
      imageFile := None;
      errors := map[];
      loading := false;
      modal := None;
      focused := None;
      serverCategories, serverSubcategories := [], [];
    }

    function Values(): FormValues
      reads this`name, this`price, this`description, this`category, this`subcategory, this`imageFile
    {
      FormValues(name, price, description, category, subcategory, imageFile)
    }

    /** `validate()`, field by field: its result is exactly the union of the
        per-field checks `validateField` makes. */
    method Validate() returns (e: map<Field, string>)
      ensures e == Validation(Values(), parseFloat)
    {
      ghost var v := Values();
      e := map[];
      if Trim(name) == "" { e := e[Name := "Απαιτείται όνομα"]; }
      assert e == Check(map[], Name, v, parseFloat);
      ghost var e1 := e;
      var p := parseFloat(price);
      if price == "" || p.None? || p.value <= 0.0 { e := e[Price := "Εισάγετε έγκυρη τιμή"]; }
      assert e == Check(e1, Price, v, parseFloat);
      ghost var e2 := e;
      if category == "" { e := e[Category := "Επιλέξτε κατηγορία"]; }
      assert e == Check(e2, Category, v, parseFloat);
      ghost var e3 := e;
      if subcategory == "" { e := e[Subcategory := "Επιλέξτε υποκατηγορία"]; }
      assert e == Check(e3, Subcategory, v, parseFloat);
      ghost var e4 := e;
      if description == "" || Trim(description) == "" { e := e[Description := "Απαιτείται περιγραφή"]; }
      assert e == Check(e4, Description, v, parseFloat);
      ghost var e5 := e;
      if imageFile.None? { e := e[Image := "Πρέπει να επιλέξετε εικόνα"]; }
      assert e == Check(e5, Image, v, parseFloat);
    }

    /** `validateField(field)`: true exactly when `validate()` would have no
        entry for the field; only that entry of the error map changes. */
    method ValidateField(field: Field) returns (ok: bool)
      modifies this`errors
      ensures ok <==> field !in Validation(Values(), parseFloat)
      ensures errors == SetFieldError(old(errors), field, FieldError(field, Values(), parseFloat))
    {
      var e: map<Field, string> := map[];
      if field == Name {
        if Trim(name) == "" { e := e[Name := "Απαιτείται όνομα"]; }
      } else if field == Price {
        var p := parseFloat(price);
        if price == "" || p.None? || p.value <= 0.0 { e := e[Price := "Εισάγετε έγκυρη τιμή"]; }
      } else if field == Category {
        if category == "" { e := e[Category := "Επιλέξτε κατηγορία"]; }
      } else if field == Subcategory {
        if subcategory == "" { e := e[Subcategory := "Επιλέξτε υποκατηγορία"]; }
      } else if field == Description {
        if description == "" || Trim(description) == "" { e := e[Description := "Απαιτείται περιγραφή"]; }
      } else {
        if imageFile.None? { e := e[Image := "Πρέπει να επιλέξετε εικόνα"]; }
      }
      assert e == Check(map[], field, Values(), parseFloat);
      var err := if field in e then Some(e[field]) else None;
      assert err == FieldError(field, Values(), parseFloat);
      errors := SetFieldError(errors, field, err);
      ok := |e| == 0;
    }

    /** Changing the category; the effect on `[category]` then clears the
        subcategory. Setting the same value again is no change, so the
        effect does not run. */
    method SetCategory(c: string)
      modifies this`category, this`subcategory
      ensures category == c
      ensures subcategory == if c != old(category) then "" else old(subcategory)
    {
      if c != category {
        category := c;
        subcategory := "";
      }
    }

    /** The file input's change: the first chosen file, or none. */
    method SelectFiles(files: seq<ImageFile>)
      modifies this`imageFile
      ensures imageFile == if files == [] then None else Some(files[0])
    {
      imageFile := if files == [] then None else Some(files[0]);
    }

    /** The remove button under the preview. */
    method RemoveImage()
      modifies this`imageFile
      ensures imageFile == None
    {
      imageFile := None;
    }

    /** `loadEnums()`: `fetched` is the two lists when both requests
        succeeded, `None` when either failed. */
    method LoadEnums(fetched: Option<(seq<string>, seq<string>)>)
      modifies this`serverCategories, this`serverSubcategories
      ensures fetched.Some? ==> serverCategories == fetched.value.0 && serverSubcategories == fetched.value.1
      ensures fetched.None? ==> serverCategories == SampleCategoryNames && serverSubcategories == []
    {
      match fetched
      case Some((cats, subs)) =>
        serverCategories, serverSubcategories := cats, subs;
      case None =>
        serverCategories, serverSubcategories := SampleCategoryNames, [];
    }

    /** The reset after a successful submit. Clearing the category also
        clears the subcategory, which is cleared explicitly as well. */
    method ResetForm()
      modifies this`name, this`price, this`description, this`category, this`subcategory, this`imageFile
      ensures Values() == EmptyForm
    {
      name := "";
      price := "";
      description := "";
      SetCategory("");
      subcategory := "";
      imageFile := None;
    }

    /** The inner `submit()`: the request is built from the current
        values, the answer `response` picks the modal, a success resets every
        field, and `loading` ends false whatever the answer. */
    method Submit(response: HttpResult) returns (request: Request)
      modifies this`loading, this`modal, this`name, this`price, this`description,
        this`category, this`subcategory, this`imageFile
      ensures request == MakeRequest(old(Values()), parseFloat)
      ensures !loading && modal == Some(OutcomeModal(Classify(response)))
      ensures Classify(response) == Created ==> Values() == EmptyForm
      ensures Classify(response) != Created ==> Values() == old(Values())
    {
      loading := true;
      request := MakeRequest(Values(), parseFloat);
      var outcome := Classify(response);
      modal := Some(OutcomeModal(outcome));
      if outcome == Created {
        ResetForm();
      }
      loading := false;
    }

    /** `handleSubmit`: the error map is replaced by `validate()`; with any
        error no request is made and nothing else changes, otherwise
        `submit()` runs. */
    method HandleSubmit(response: HttpResult) returns (request: Option<Request>)
      modifies this
      ensures errors == Validation(old(Values()), parseFloat)
      ensures Validation(old(Values()), parseFloat) != map[] ==>
        && request == None && Values() == old(Values())
        && loading == old(loading) && modal == old(modal)
      ensures Validation(old(Values()), parseFloat) == map[] ==>
        && request == Some(MakeRequest(old(Values()), parseFloat))
        && !loading
        && modal == Some(OutcomeModal(Classify(response)))
        && (Classify(response) == Created ==> Values() == EmptyForm)
        && (Classify(response) != Created ==> Values() == old(Values()))
      ensures focused == old(focused)
      ensures serverCategories == old(serverCategories) && serverSubcategories == old(serverSubcategories)
    {
      var e := Validate();
      errors := e;
      if e != map[] {
        return None;
      }
      var sent := Submit(response);
      request := Some(sent);
    }

    /** `handleEnterKey(e, field)`: ignored keys change nothing; otherwise the
        field is validated, and only when it passes does focus move to the
        next input, or, from the subcategory, the form is submitted. */
    method HandleEnterKey(ev: KeyEvent, field: Field, response: HttpResult) returns (request: Option<Request>)
      modifies this
      ensures IgnoredKey(ev, field) ==> request == None && unchanged(this)
      ensures !IgnoredKey(ev, field) && (Fails(field, old(Values()), parseFloat) || field != Subcategory) ==>
        && request == None && Values() == old(Values())
        && loading == old(loading) && modal == old(modal)
        && errors == SetFieldError(old(errors), field, FieldError(field, old(Values()), parseFloat))
      ensures !IgnoredKey(ev, field) && Fails(field, old(Values()), parseFloat) ==> focused == old(focused)
      ensures !IgnoredKey(ev, field) && !Fails(field, old(Values()), parseFloat) && field != Subcategory ==>
        focused == if NextFocus(field).Some? then NextFocus(field) else old(focused)
      ensures !IgnoredKey(ev, field) && !Fails(field, old(Values()), parseFloat) && field == Subcategory ==>
        && errors == Validation(old(Values()), parseFloat)
        && focused == old(focused)
        && (Validation(old(Values()), parseFloat) == map[] ==>
              && request == Some(MakeRequest(old(Values()), parseFloat)) && !loading
              && modal == Some(OutcomeModal(Classify(response)))
              && (Classify(response) == Created ==> Values() == EmptyForm)
              && (Classify(response) != Created ==> Values() == old(Values())))
        && (Validation(old(Values()), parseFloat) != map[] ==>
              && request == None && Values() == old(Values())
              && loading == old(loading) && modal == old(modal))
      ensures serverCategories == old(serverCategories) && serverSubcategories == old(serverSubcategories)
    {
      if IgnoredKey(ev, field) {
        return None;
      }
      var ok := ValidateField(field);
      if !ok {
        return None;
      }
      if field == Subcategory {
        request := HandleSubmit(response);
        return;
      }
      var next := NextFocus(field);
      if next.Some? {
        focused := next;
      }
      request := None;
    }
  }
}
