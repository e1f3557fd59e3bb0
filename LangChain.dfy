/**
 * Classification of LangChain classes into component views
 * (src/langchain/trulens/ext/instrument/langchain/langchain.py).
 *
 * A class is seen only through `noserio_issubclass(module_name, class_name)`,
 * which is an uninterpreted predicate here, and through the verdict of the
 * base `Other.class_is`, which lives outside this file.
 */
module LangChain {
  import opened Wrappers

  /** A class descriptor (`trulens.utils.pyschema.Class`). */
  datatype Class = Class(
    noserioIssubclass: (string, string) -> bool,  // (module_name, class_name)
    baseOtherClassIs: bool)                       // what the inherited `Other.class_is` answers

  /** The three component views of this file. */
  datatype View = Prompt | LLM | Other

  /** `COMPONENT_VIEWS`: `Other` is last. */
  const ComponentViews: seq<View> := [Prompt, LLM, Other]

  datatype TypeError = UnknownComponentType

  /** `Prompt.class_is` */
  predicate PromptClassIs(cls: Class)
  {
    || cls.noserioIssubclass("langchain.prompts.base", "BasePromptTemplate")
    || cls.noserioIssubclass("langchain.schema.prompt_template", "BasePromptTemplate")
  }

  /** `LLM.class_is` */
  predicate LLMClassIs(cls: Class)
  {
    cls.noserioIssubclass("langchain.llms.base", "BaseLLM")
  }

  /** `view.class_is(cls)` */
  predicate ClassIs(view: View, cls: Class)
  {
    match view
    case Prompt => PromptClassIs(cls)
    case LLM => LLMClassIs(cls)
    case Other => cls.baseOtherClassIs
  }

  /** The `for view in ...: if view.class_is(cls): return view` loop over `views`. */
  function FirstMatching(views: seq<View>, cls: Class): (r: Result<View, TypeError>)
    ensures r.Success? ==>
      exists k :: 0 <= k < |views| && views[k] == r.value && ClassIs(views[k], cls) &&
        forall j :: 0 <= j < k ==> !ClassIs(views[j], cls)
    ensures r.Failure? <==> forall j :: 0 <= j < |views| ==> !ClassIs(views[j], cls)
  {
    if |views| == 0 then Failure(UnknownComponentType)
    else if ClassIs(views[0], cls) then Success(views[0])
    else
      var r := FirstMatching(views[1..], cls);
      FirstMatchingShift(views, cls, r);
      r
  }

  /** A first match after a non-matching head is the first match overall. */
  lemma FirstMatchingShift(views: seq<View>, cls: Class, r: Result<View, TypeError>)
    requires |views| > 0 && !ClassIs(views[0], cls)
    requires r.Success? ==>
      exists k :: 0 <= k < |views[1..]| && views[1..][k] == r.value && ClassIs(views[1..][k], cls) &&
        forall j :: 0 <= j < k ==> !ClassIs(views[1..][j], cls)
    requires r.Failure? <==> forall j :: 0 <= j < |views[1..]| ==> !ClassIs(views[1..][j], cls)
    ensures r.Success? ==>
      exists k :: 0 <= k < |views| && views[k] == r.value && ClassIs(views[k], cls) &&
        forall j :: 0 <= j < k ==> !ClassIs(views[j], cls)
    ensures r.Failure? <==> forall j :: 0 <= j < |views| ==> !ClassIs(views[j], cls)
  {
    assert forall j :: 1 <= j < |views| ==> views[j] == views[1..][j - 1];
    if r.Success? {
      var k :| 0 <= k < |views[1..]| && views[1..][k] == r.value && ClassIs(views[1..][k], cls) &&
        forall j :: 0 <= j < k ==> !ClassIs(views[1..][j], cls);
      assert views[k + 1] == r.value && ClassIs(views[k + 1], cls);
    }
  }

  /** `constructor_of_class`: the first view of `COMPONENT_VIEWS` whose `class_is` holds, else `TypeError`. */
  function ConstructorOfClass(cls: Class): (r: Result<View, TypeError>)
    ensures r == Success(Prompt) <==> PromptClassIs(cls)
    ensures r == Success(LLM) <==> !PromptClassIs(cls) && LLMClassIs(cls)
    ensures r == Success(Other) <==> !PromptClassIs(cls) && !LLMClassIs(cls) && cls.baseOtherClassIs
    ensures r.Failure? <==> !PromptClassIs(cls) && !LLMClassIs(cls) && !cls.baseOtherClassIs
  {
    var r := FirstMatching(ComponentViews, cls);
    assert ComponentViews[0] == Prompt && ComponentViews[1] == LLM && ComponentViews[2] == Other;
    r
  }

  /** A class that is both a prompt template and an LLM is classified as a prompt. */
  lemma PromptWinsOverLLM(cls: Class)
    requires PromptClassIs(cls) && LLMClassIs(cls)
    ensures ConstructorOfClass(cls) == Success(Prompt)
  {
  }

  /** When the base `Other.class_is` always holds, classification never raises. */
  lemma OtherMakesClassificationTotal(cls: Class)
    requires cls.baseOtherClassIs
    ensures ConstructorOfClass(cls).Success?
  {
  }

  /**
   * The key of the component's JSON that its own accessor property reads
   * (`Prompt.template` reads `json["template"]`, `LLM.model_name` reads
   * `json["model_name"]`); `Other` adds none.
   */
  function AccessorKey(view: View): Option<string>
  {
    match view
    case Prompt => Some("template")
    case LLM => Some("model_name")
    case Other => None
  }

  /**
   * The `skip` set a view passes to the base `unsorted_parameters`;
   * `None` where the view does not override it.
   */
  function UnsortedParametersSkip(view: View): (skip: Option<set<string>>)
    ensures skip.Some? <==> AccessorKey(view).Some?
    ensures skip.Some? ==> skip.value == {AccessorKey(view).value}
  {
    match view
    case Prompt => Some({"template"})
    case LLM => Some({"model_name"})
    case Other => None
  }

  /** The accessor property: `self.json[key]`, a `KeyError` when the key is missing. */
  function Accessor(view: View, json: map<string, string>): (r: Result<string, string>)
    requires AccessorKey(view).Some?
    ensures r.Success? <==> AccessorKey(view).value in json
    ensures r.Success? ==> r.value == json[AccessorKey(view).value]
  {
    var key := AccessorKey(view).value;
    if key in json then Success(json[key]) else Failure(key)
  }
}
