/**
 * The create-poll page: the editable list of option fields and the checks
 * the page runs before it posts a new poll to the backend.
 *
 * The page keeps its question and options in React state; here they are
 * the fields of a `CreatePollForm` object, and each setter call becomes an
 * assignment of the new list. Posting the request is recorded in the ghost
 * log `submitted`; the backend's answer and the navigation that follows are
 * not part of this model.
 */
module CreateForm {
  import opened Wrappers
  import opened Text

  const MinOptions := 2
  const MaxOptions := 10

  const QuestionRequired := "Question is required"
  const OptionsRequired := "All options must be filled"
  const TooFewOptions := "At least 2 options required"

  /** The body of the POST the page sends once its checks pass. */
  datatype Submission = Submission(question: string, options: seq<string>, creatorEmail: Option<string>)

  /** `addOption`: one more empty field while there are fewer than ten. */
  function Added(options: seq<string>): (r: seq<string>)
    ensures |r| == if |options| < MaxOptions then |options| + 1 else |options|
    ensures r[..|options|] == options
    ensures |r| > |options| ==> r[|options|] == ""
  {
    if |options| < MaxOptions then options + [""] else options
  }

  /** `options.filter((_, i) => i !== index)`. */
  function WithoutIndex(options: seq<string>, index: int): seq<string> {
    if options == [] then []
    else
      var last := |options| - 1;
      WithoutIndex(options[..last], index) + (if last != index then [options[last]] else [])
  }

  /** `removeOption`: drops field `index` while more than two remain. */
  function Removed(options: seq<string>, index: int): seq<string> {
    if |options| > MinOptions then WithoutIndex(options, index) else options
  }

  /** `updateOption`: the copied list with field `index` replaced. */
  function Updated(options: seq<string>, index: int, value: string): (r: seq<string>)
    requires 0 <= index < |options|
    ensures |r| == |options| && r[index] == value
    ensures forall j :: 0 <= j < |options| && j != index ==> r[j] == options[j]
  {
    options[index := value]
  }

  /** Some field is empty after trimming (`options.some(opt => !opt.trim())`). */
  predicate AnyBlank(options: seq<string>) {
    exists i :: 0 <= i < |options| && IsBlank(options[i])
  }

  /** The message `handleSubmit` sets, from the first check that fails, or `None` when it posts. */
  function SubmitError(question: string, options: seq<string>): (r: Option<string>)
    ensures r == Some(QuestionRequired) <==> IsBlank(question)
    ensures r == Some(OptionsRequired) <==> !IsBlank(question) && AnyBlank(options)
    ensures r == Some(TooFewOptions) <==> !IsBlank(question) && !AnyBlank(options) && |options| < MinOptions
    ensures r.None? <==> !IsBlank(question) && !AnyBlank(options) && |options| >= MinOptions
  {
    if IsBlank(question) then Some(QuestionRequired)
    else if AnyBlank(options) then Some(OptionsRequired)
    else if |options| < MinOptions then Some(TooFewOptions)
    else None
  }

  /**
   * `removeOption(index)` removes exactly field `index` and keeps the order
   * of the others when more than two fields exist and `index` names one of
   * them; otherwise the list stays as it is.
   */
  lemma {:induction false} RemovedExactlyIndex(options: seq<string>, index: int)
    ensures |options| > MinOptions && 0 <= index < |options| ==>
      Removed(options, index) == options[..index] + options[index + 1..]
    ensures !(|options| > MinOptions && 0 <= index < |options|) ==> Removed(options, index) == options
  {
    WithoutIndexSpec(options, index);
  }

  lemma {:induction false} WithoutIndexSpec(options: seq<string>, index: int)
    ensures 0 <= index < |options| ==> WithoutIndex(options, index) == options[..index] + options[index + 1..]
    ensures !(0 <= index < |options|) ==> WithoutIndex(options, index) == options
  {
    if options != [] {
      var last := |options| - 1;
      var init := options[..last];
      WithoutIndexSpec(init, index);
      if last == index {
        assert options[..index] == init;
        assert options[index + 1..] == [];
      } else if 0 <= index < last {
        assert options[..index] == init[..index];
        assert options[index + 1..] == init[index + 1..] + [options[last]];
      } else {
        assert options == init + [options[last]];
      }
    }
  }

  /** One call the page can make on its option list. */
  datatype Edit = Add | Remove(index: int) | Update(index: int, value: string)

  /**
   * The list after one call. The page renders one input per field and only
   * ever updates a field it rendered, so an `Update` outside the list (which
   * JavaScript would answer by growing the array) is read as no change.
   */
  function Apply(options: seq<string>, e: Edit): seq<string> {
    match e
    case Add => Added(options)
    case Remove(i) => Removed(options, i)
    case Update(i, v) => if 0 <= i < |options| then Updated(options, i, v) else options
  }

  /** The list after a run of calls, starting from the two empty fields of a fresh page. */
  function Replay(edits: seq<Edit>): seq<string> {
    if edits == [] then ["", ""] else Apply(Replay(edits[..|edits| - 1]), edits[|edits| - 1])
  }

  lemma {:induction false} ApplyKeepsBounds(options: seq<string>, e: Edit)
    requires MinOptions <= |options| <= MaxOptions
    ensures MinOptions <= |Apply(options, e)| <= MaxOptions
  {
    if e.Remove? {
      RemovedExactlyIndex(options, e.index);
    }
  }

  /** Every run of add/remove/update calls from a fresh page keeps between two and ten fields. */
  lemma {:induction false} ReplayKeepsBounds(edits: seq<Edit>)
    ensures MinOptions <= |Replay(edits)| <= MaxOptions
  {
    if edits != [] {
      ReplayKeepsBounds(edits[..|edits| - 1]);
      ApplyKeepsBounds(Replay(edits[..|edits| - 1]), edits[|edits| - 1]);
    }
  }

  /** Hence the page's "At least 2 options required" message can never be shown. */
  lemma {:induction false} TooFewNeverReported(question: string, edits: seq<Edit>)
    ensures SubmitError(question, Replay(edits)) != Some(TooFewOptions)
  {
    ReplayKeepsBounds(edits);
  }

  class CreatePollForm {
    var question: string
    var options: seq<string>
    var error: string
    /** Every create request the page has posted. */
    ghost var submitted: seq<Submission>

    ghost predicate Valid()
      reads this
    {
      MinOptions <= |options| <= MaxOptions
    }

    constructor ()
      ensures Valid()
      ensures question == "" && options == ["", ""] && error == "" && submitted == []
    {
      question, options, error := "", ["", ""], "";
      submitted := [];
    }

    method SetQuestion(value: string)
      modifies this`question
      ensures question == value
    {
      question := value;
    }

    method AddOption()
      requires Valid()
      modifies this`options
      ensures Valid()
      ensures options == Added(old(options))
    {
      if |options| < MaxOptions {
        options := options + [""];
      }
    }

    method RemoveOption(index: int)
      requires Valid()
      modifies this`options
      ensures Valid()
      ensures options == Removed(old(options), index)
    {
      RemovedExactlyIndex(options, index);
      if |options| > MinOptions {
        options := WithoutIndex(options, index);
      }
    }

    /** The only caller passes the index of a rendered field. */
    method UpdateOption(index: int, value: string)
      requires Valid()
      requires 0 <= index < |options|
      modifies this`options
      ensures Valid()
      ensures options == Updated(old(options), index, value)
    {
      var copy := options;
      copy := copy[index := value];
      options := copy;
    }

    /** `handleSubmit`: clear the message, run the checks in order, post only when all pass. */
    method HandleSubmit(creatorEmail: Option<string>)
      modifies this`error, this`submitted
      ensures SubmitError(question, options).Some? ==>
        error == SubmitError(question, options).value && submitted == old(submitted)
      ensures SubmitError(question, options).None? ==>
        error == "" && submitted == old(submitted) + [Submission(question, options, creatorEmail)]
    {
      error := "";
      ghost var expected := SubmitError(question, options);
      if IsBlank(question) {
        assert expected == Some(QuestionRequired);
        error := QuestionRequired;
        return;
      }
      if AnyBlank(options) {
        assert expected == Some(OptionsRequired);
        error := OptionsRequired;
        return;
      }
      if |options| < MinOptions {
        assert expected == Some(TooFewOptions);
        error := TooFewOptions;
        return;
      }
      assert expected == None;
      submitted := submitted + [Submission(question, options, creatorEmail)];
    }
  }
}
