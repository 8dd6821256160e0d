/**
 * The form logic of src/components/AddSourceModal.tsx: field-by-field validation into an error
 * map, the input-change handler, and the guard before saving. Whether `new URL(s)` accepts a
 * string is a parameter.
 */
module AddSourceForm {
  import opened Wrappers
  import opened Text
  import ApiStore

  /** `formData` */
  datatype FormData = FormData(name: string, apiKey: string, apiBase: string, isDefault: bool)

  const InitialForm: FormData := FormData("", "", "https://api.anthropic.com", false)

  const NameRequired: string := "请输入源名称"
  const KeyRequired: string := "请输入 API 密钥"
  const KeyPrefixError: string := "API 密钥应以 \"sk-\" 开头"
  const BaseRequired: string := "请输入 API 地址"
  const BaseInvalid: string := "请输入有效的 URL 地址"

  /** One call of `handleInputChange(field, value)`, named by its field. */
  datatype Edit = EditName(text: string) | EditApiKey(text: string) | EditApiBase(text: string) | EditDefault(flag: bool)

  /** A field value: the text inputs give strings, the checkbox a boolean. */
  datatype FieldValue = Text(s: string) | Flag(b: bool)

  /** `{ success, message }` of the last connection test. */
  datatype TestResult = TestResult(success: bool, message: string)

  /** The component state that validation and editing touch. */
  datatype FormState = FormState(form: FormData, errors: map<string, string>, testResult: Option<TestResult>)

  const FieldKeys: set<string> := {"name", "apiKey", "api_base", "is_default"}

  /** The map `validateForm` builds, as a value: one entry per field that fails its check. */
  function Errors(form: FormData, parsesAsUrl: string -> bool): (m: map<string, string>)
    ensures m.Keys <= {"name", "apiKey", "api_base"}
    ensures "name" in m <==> IsBlank(form.name)
    ensures "name" in m ==> m["name"] == NameRequired
    ensures "apiKey" in m <==> IsBlank(form.apiKey) || !StartsWith(form.apiKey, "sk-")
    ensures "apiKey" in m ==> m["apiKey"] == if IsBlank(form.apiKey) then KeyRequired else KeyPrefixError
    ensures "api_base" in m <==> IsBlank(form.apiBase) || !parsesAsUrl(form.apiBase)
    ensures "api_base" in m ==> m["api_base"] == if IsBlank(form.apiBase) then BaseRequired else BaseInvalid
  {
    var m0: map<string, string> := map[];
    var m1 := if IsBlank(form.name) then m0["name" := NameRequired] else m0;
    var m2 :=
      if IsBlank(form.apiKey) then m1["apiKey" := KeyRequired]
      else if !StartsWith(form.apiKey, "sk-") then m1["apiKey" := KeyPrefixError]
      else m1;
    if IsBlank(form.apiBase) then m2["api_base" := BaseRequired]
    else if !parsesAsUrl(form.apiBase) then m2["api_base" := BaseInvalid]
    else m2
  }

  /** `Object.keys(m).length === 0` holds exactly for the empty map. */
  lemma NoKeysIsEmpty(m: map<string, string>)
    ensures |m.Keys| == 0 <==> m == map[]
  {
    if m != map[] {
      var k :| k in m;
      assert k in m.Keys;
    }
  }

  /** `validateForm()`: builds `newErrors` one field at a time and reports whether it stayed empty. */
  method ValidateForm(form: FormData, parsesAsUrl: string -> bool) returns (errors: map<string, string>, valid: bool)
    ensures errors == Errors(form, parsesAsUrl)
    ensures valid <==> errors == map[]
  {
    var newErrors: map<string, string> := map[];
    if IsBlank(form.name) {
      newErrors := newErrors["name" := NameRequired];
    }
    if IsBlank(form.apiKey) {
      newErrors := newErrors["apiKey" := KeyRequired];
    } else if !StartsWith(form.apiKey, "sk-") {
      newErrors := newErrors["apiKey" := KeyPrefixError];
    }
    if IsBlank(form.apiBase) {
      newErrors := newErrors["api_base" := BaseRequired];
    } else if !parsesAsUrl(form.apiBase) {
      newErrors := newErrors["api_base" := BaseInvalid];
    }
    errors := newErrors;
    valid := |errors.Keys| == 0;
    NoKeysIsEmpty(errors);
  }

  /** A form is valid exactly when every field passes its own check. */
  lemma ValidIffEveryFieldPasses(form: FormData, parsesAsUrl: string -> bool)
    ensures Errors(form, parsesAsUrl) == map[]
      <==> (!IsBlank(form.name) && !IsBlank(form.apiKey) && StartsWith(form.apiKey, "sk-")
            && !IsBlank(form.apiBase) && parsesAsUrl(form.apiBase))
  {
    var m := Errors(form, parsesAsUrl);
    if m == map[] {
      assert "name" !in m && "apiKey" !in m && "api_base" !in m;
    }
  }

  /** The entry of a key in the error map, `errors[key]` with `undefined` as `None`. */
  function Entry(m: map<string, string>, key: string): Option<string> {
    if key in m then Some(m[key]) else None
  }

  /** Each field's error depends on that field alone: forms that agree on it get the same entry. */
  lemma FieldErrorIsLocal(f: FormData, g: FormData, key: string, parsesAsUrl: string -> bool)
    requires key in FieldKeys
    requires FieldOf(f, key) == FieldOf(g, key)
    ensures Entry(Errors(f, parsesAsUrl), key) == Entry(Errors(g, parsesAsUrl), key)
  {
    if key == "name" {
      assert f.name == g.name;
    } else if key == "apiKey" {
      assert f.apiKey == g.apiKey;
    } else if key == "api_base" {
      assert f.apiBase == g.apiBase;
    }
  }

  /** A key with leading white space fails the prefix test even when its trimmed text starts with `sk-`. */
  lemma UntrimmedPrefixTest(form: FormData, parsesAsUrl: string -> bool)
    requires form.apiKey == " sk-abc"
    ensures "apiKey" in Errors(form, parsesAsUrl) && Errors(form, parsesAsUrl)["apiKey"] == KeyPrefixError
  {
    assert !IsBlank(" sk-abc") by { assert !IsJsWhiteSpace(" sk-abc"[1]); }
    assert " sk-abc"[..3] != "sk-" by { assert " sk-abc"[..3][0] == ' '; }
  }

  /** The form as it opens for a new source fails on its empty name and key, so it cannot be saved unedited. */
  lemma InitialFormRejected(parsesAsUrl: string -> bool)
    ensures var m := Errors(InitialForm, parsesAsUrl);
      && "name" in m && m["name"] == NameRequired
      && "apiKey" in m && m["apiKey"] == KeyRequired
      && (parsesAsUrl(InitialForm.apiBase) ==> "api_base" !in m)
  {
    assert !IsBlank(InitialForm.apiBase) by { assert !IsJsWhiteSpace(InitialForm.apiBase[0]); }
  }

  /** The field an edit names, as the key `handleInputChange` receives. */
  function FieldKey(e: Edit): string {
    match e
    case EditName(_) => "name"
    case EditApiKey(_) => "apiKey"
    case EditApiBase(_) => "api_base"
    case EditDefault(_) => "is_default"
  }

  /** `formData[key]` */
  function FieldOf(form: FormData, key: string): FieldValue
    requires key in FieldKeys
  {
    if key == "name" then Text(form.name)
    else if key == "apiKey" then Text(form.apiKey)
    else if key == "api_base" then Text(form.apiBase)
    else Flag(form.isDefault)
  }

  /** The value an edit carries. */
  function ValueOf(e: Edit): FieldValue {
    match e
    case EditDefault(b) => Flag(b)
    case _ => Text(e.text)
  }

  /**
   * `handleInputChange(field, value)`: the field takes the value, its error is reset to `''` only
   * when it held a non-empty one, and the last test result is dropped.
   */
  function HandleInputChange(st: FormState, e: Edit): (r: FormState)
    ensures FieldOf(r.form, FieldKey(e)) == ValueOf(e)
    ensures forall k :: k in FieldKeys && k != FieldKey(e) ==> FieldOf(r.form, k) == FieldOf(st.form, k)
    ensures var key := FieldKey(e);
      r.errors == if key in st.errors && st.errors[key] != "" then st.errors[key := ""] else st.errors
    ensures r.testResult == None
  {
    var form :=
      match e
      case EditName(s) => st.form.(name := s)
      case EditApiKey(s) => st.form.(apiKey := s)
      case EditApiBase(s) => st.form.(apiBase := s)
      case EditDefault(b) => st.form.(isDefault := b);
    var key := FieldKey(e);
    FormState(form, if key in st.errors && st.errors[key] != "" then st.errors[key := ""] else st.errors, None)
  }

  /**
   * `handleSubmit`: validation runs first and its map becomes the error state; nothing is saved
   * when it fails; otherwise the form fields go out with the edited source's id, if any.
   */
  method HandleSubmit(form: FormData, editingId: Option<Option<int>>, parsesAsUrl: string -> bool)
    returns (errors: map<string, string>, request: Option<ApiStore.SubmittedSource>)
    ensures request.None? <==> errors != map[]
    ensures errors == Errors(form, parsesAsUrl)
    ensures request.Some? ==> request.value == ApiStore.SubmittedSource(if editingId.Some? then editingId.value else None,
      form.name, form.apiKey, form.apiBase, form.isDefault)
  {
    var valid;
    errors, valid := ValidateForm(form, parsesAsUrl);
    if !valid {
      request := None;
      return;
    }
    request := Some(ApiStore.SubmittedSource(if editingId.Some? then editingId.value else None,
                                             form.name, form.apiKey, form.apiBase, form.isDefault));
  }
}
