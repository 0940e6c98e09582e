/**
 * The Forge wizard (components/ForgeWizard.tsx): a three-tab panel where the
 * user either pastes a session as JSON, copies the generation protocol, or
 * edits a custom fragment made of three layers (HTML, CSS, JS), one layer at
 * a time as selected by a step index.
 */
module Forge {
  import opened Content

  /** The three editable layers of a custom fragment. */
  datatype Layers = Layers(html: string, css: string, js: string)

  /** The layer a step index selects. */
  datatype Field = Html | Css | Js

  /** The wizard's tab. */
  datatype WizardMode = LayerMode | JsonMode | ProtocolMode

  /** The labels of the step buttons, in button order; a button sets `step` to its position. */
  const StepLabels: seq<string> := ["HTML", "CSS", "REACT"]

  const DefaultLayers: Layers := Layers(
    "<!-- Use this for custom layouts -->\n<div id=\"app\"></div>",
    "/* Custom Styles */",
    "// React Component\nconst App = () => (\n  <div className=\"flex items-center justify-center h-full\">...</div>\n);\n"
    + "const root = ReactDOM.createRoot(document.getElementById(\"forge-root\"));\nroot.render(<App />);")

  /** The field edited at a step: 0 is HTML, 1 is CSS, any other value JS. */
  function FieldOf(step: int): (f: Field)
    ensures f == Html <==> step == 0
    ensures f == Css <==> step == 1
  {
    if step == 0 then Html else if step == 1 then Css else Js
  }

  /** The position of the step button that selects a field. */
  function StepOf(f: Field): (step: nat)
    ensures step < |StepLabels|
  {
    match f
    case Html => 0
    case Css => 1
    case Js => 2
  }

  /** Selecting a field's button and reading the field back are inverse on the three buttons. */
  lemma StepFieldRoundTrip(f: Field, step: nat)
    requires step < |StepLabels|
    ensures FieldOf(StepOf(f)) == f
    ensures StepOf(FieldOf(step)) == step
  {
  }

  function Get(l: Layers, f: Field): string {
    match f
    case Html => l.html
    case Css => l.css
    case Js => l.js
  }

  /** `{ ...layers, [field]: v }`: replaces one field and keeps the other two. */
  function Put(l: Layers, f: Field, v: string): (r: Layers)
    ensures Get(r, f) == v
    ensures forall g :: g != f ==> Get(r, g) == Get(l, g)
  {
    match f
    case Html => l.(html := v)
    case Css => l.(css := v)
    case Js => l.(js := v)
  }

  class ForgeWizard {
    var mode: WizardMode
    var copied: bool
    var step: int
    var layers: Layers
    var jsonInput: string

    /** The step index always names one of the step buttons. */
    ghost predicate Valid()
      reads this
    {
      0 <= step < |StepLabels|
    }

    constructor ()
      ensures Valid()
      ensures mode == JsonMode && !copied && step == 0
      ensures layers == DefaultLayers && jsonInput == ""
    {
      mode := JsonMode;
      copied := false;
      step := 0;
      layers := DefaultLayers;
      jsonInput := "";
    }

    /** The text shown in the layer editor. */
    function EditorValue(): string
      reads this
    {
      Get(layers, FieldOf(step))
    }

    method SelectMode(m: WizardMode)
      modifies this`mode
      ensures mode == m
    {
      mode := m;
    }

    /** A press on the step button at position `i`. */
    method SelectStep(i: nat)
      requires i < |StepLabels|
      modifies this`step
      ensures Valid() && step == i
    {
      step := i;
    }

    /** Typing `v` into the layer editor: the edited field is the one of the lit step button. */
    method EditLayer(v: string)
      requires Valid()
      modifies this`layers
      ensures StepOf(FieldOf(step)) == step
      ensures layers == Put(old(layers), FieldOf(step), v)
      ensures EditorValue() == v
      ensures forall g :: g != FieldOf(step) ==> Get(layers, g) == Get(old(layers), g)
    {
      var field := FieldOf(step);
      layers := Put(layers, field, v);
    }

    method SetJsonInput(s: string)
      modifies this`jsonInput
      ensures jsonInput == s
    {
      jsonInput := s;
    }

    /** Copying the protocol prompt marks it as copied and schedules a reset. */
    method CopyProtocol()
      modifies this`copied
      ensures copied
    {
      copied := true;
    }

    /** The reset timer scheduled by `CopyProtocol` fires. */
    method CopiedTimerElapsed()
      modifies this`copied
      ensures !copied
    {
      copied := false;
    }

    /**
     * The JSON submit button. `isJson` stands for `JSON.parse` succeeding.
     * The input is handed to `onJsonLoad` unmodified exactly when it parses;
     * otherwise nothing is handed on.
     */
    method SubmitJson(isJson: string -> bool) returns (loaded: Option<string>)
      ensures loaded.Some? <==> isJson(jsonInput)
      ensures loaded.Some? ==> loaded.value == jsonInput
    {
      if isJson(jsonInput) {
        loaded := Some(jsonInput);
      } else {
        loaded := None;
      }
    }

    /** The render button hands the current layers to `onComplete`. */
    method Complete() returns (l: Layers)
      ensures l == layers
    {
      l := layers;
    }
  }
}
