/** Writing rendered records to a freshly truncated text file, one line
    each, as both `write_csv` functions do (`f.write(line + "\n")` in a loop,
    with no header). A record that cannot be rendered raises mid-loop, and
    the lines written before it stay in the file. */
module Csv {
  import opened Results
  import opened PyText

  /** The file contents left behind and the exception that stopped the loop, if any. */
  datatype Written = Written(text: string, failure: Option<Error>)

  /** `text` written before `w`. */
  function After(text: string, w: Written): Written {
    Written(text + w.text, w.failure)
  }

  /** What writing `render(x) + "\n"` for each `x` of `items`, in order, leaves behind. */
  function Emit<T>(items: seq<T>, render: T -> Result<string>): Written {
    if items == [] then Written("", None)
    else match render(items[0])
      case Failure(e) => Written("", Some(e))
      case Success(line) => After(line + "\n", Emit(items[1..], render))
  }

  /** The writing loop. */
  method WriteLines<T>(items: seq<T>, render: T -> Result<string>) returns (text: string, failure: Option<Error>)
    ensures Written(text, failure) == Emit(items, render)
    ensures items == [] ==> text == "" && failure == None
  {
    text, failure := "", None;
    var i := 0;
    while i < |items|
      invariant 0 <= i <= |items|
      invariant Emit(items, render) == After(text, Emit(items[i..], render))
    {
      assert items[i..][1..] == items[i + 1..];
      match render(items[i]) {
        case Failure(e) =>
          failure := Some(e);
          return;
        case Success(line) =>
          text := text + line + "\n";
      }
      i := i + 1;
    }
    assert items[i..] == [];
  }

  /** The loop runs to the end exactly when every item renders. */
  lemma {:induction false} EmitCompleteIff<T>(items: seq<T>, render: T -> Result<string>)
    ensures Emit(items, render).failure == None <==>
            forall k | 0 <= k < |items| :: render(items[k]).Success?
  {
    if items != [] {
      EmitCompleteIff(items[1..], render);
      assert forall k | 1 <= k < |items| :: items[k] == items[1..][k - 1];
    }
  }

  /** The first item that fails to render stops the loop: the file keeps the
      lines of the items before it, and its exception is the one raised. */
  lemma {:induction false} EmitFirstFailure<T>(items: seq<T>, render: T -> Result<string>, k: nat)
    requires k < |items| && render(items[k]).Failure?
    requires forall j | 0 <= j < k :: render(items[j]).Success?
    ensures Emit(items[..k], render).failure == None
    ensures Emit(items, render) == Written(Emit(items[..k], render).text, Some(render(items[k]).error))
  {
    if k > 0 {
      assert items[1..][..k - 1] == items[..k][1..];
      EmitFirstFailure(items[1..], render, k - 1);
    }
  }

  /** When every item renders to a line without "\n", splitting the file on
      "\n" gives back those lines in input order, then the empty string after
      the final "\n". */
  lemma {:induction false} EmitSplitLines<T>(items: seq<T>, render: T -> Result<string>)
    requires forall k | 0 <= k < |items| :: render(items[k]).Success? && '\n' !in render(items[k]).value
    ensures Emit(items, render).failure == None
    ensures |Split(Emit(items, render).text, "\n")| == |items| + 1
    ensures Split(Emit(items, render).text, "\n")[|items|] == ""
    ensures forall k | 0 <= k < |items| :: Split(Emit(items, render).text, "\n")[k] == render(items[k]).value
  {
    if items != [] {
      var line := render(items[0]).value;
      var rest := Emit(items[1..], render);
      EmitSplitLines(items[1..], render);
      ContainsChar(line, '\n');
      SingleCharUnbordered('\n');
      SplitCons(line, "\n", rest.text);
      assert Emit(items, render).text == line + "\n" + rest.text;
    }
  }
}
