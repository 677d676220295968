/** Values, errors and files shared by every part of the report engine. */
module Base {

  /** One cell of a report table: absent (pandas' NaN or a JSON null), text, or a whole number. */
  datatype Value = Missing | Str(s: string) | Int(n: int)

  /** The exceptions the report code lets escape, one constructor per cause. */
  datatype Error =
    | EmptySeparator                  // str.split / str.rsplit with '' (ValueError)
    | NoSampleName(path: string)      // rsplit(prefix)[1] on a path without the prefix (IndexError)
    | Unreadable(path: string)        // open() of a path that is not a readable file
    | MalformedJson(path: string)     // json.load fails
    | NotAnObject(path: string)       // .get on a JSON value that is not an object
    | Unparsable(path: string)        // pandas.read_csv fails on the file
    | NothingToConcatenate            // pandas.concat of an empty list
    | DuplicateLabels                 // reindexing an outer join on a non-unique index
    | MarkerNotFound(path: string)    // re.search(...) is None, so .group fails
    | NoColumns(path: string)         // pandas.read_csv on a text without a header line
    | MissingColumn(name: string)     // usecols / column selection names an absent column
    | TooManyFields(path: string)     // a data line longer than the header
    | NotNumeric(column: string)      // float() of a column's leading token fails

  datatype Result<T> = Ok(value: T) | Err(error: Error)

  datatype Option<T> = None | Some(value: T)

  /** An entry a directory listing (glob) returned: its path and what reading it yields. */
  datatype File<C> = File(path: string, content: C)

  /** A list comprehension whose element expression may raise: every result in order, or the
      error of the first element that fails. */
  function Collect<A, B>(xs: seq<A>, f: A -> Result<B>): (r: Result<seq<B>>)
    ensures r.Ok? <==> forall i :: 0 <= i < |xs| ==> f(xs[i]).Ok?
    ensures r.Ok? ==> |r.value| == |xs| && forall i :: 0 <= i < |xs| ==> r.value[i] == f(xs[i]).value
    ensures r.Err? ==> exists i :: 0 <= i < |xs| && f(xs[i]) == Err(r.error) &&
                                   forall j :: 0 <= j < i ==> f(xs[j]).Ok?
  {
    if xs == [] then Ok([])
    else
      var init := xs[..|xs| - 1];
      assert forall i :: 0 <= i < |init| ==> init[i] == xs[i];
      match Collect(init, f)
      case Err(e) => Err(e)
      case Ok(ys) =>
        match f(xs[|xs| - 1])
        case Err(e) => Err(e)
        case Ok(y) => Ok(ys + [y])
  }

  /** A non-empty sequence is its front followed by its last element. */
  lemma InitAndLast<T>(xs: seq<T>)
    requires |xs| >= 1
    ensures xs == xs[..|xs| - 1] + [xs[|xs| - 1]]
  {
  }

  /** One more element that succeeds extends the results by its value. */
  lemma CollectExtends<A, B>(xs: seq<A>, f: A -> Result<B>, i: nat, ys: seq<B>)
    requires i < |xs| && Collect(xs[..i], f) == Ok(ys) && f(xs[i]).Ok?
    ensures Collect(xs[..i + 1], f) == Ok(ys + [f(xs[i]).value])
  {
    assert xs[..i + 1][..i] == xs[..i];
  }

  /** Once an element fails, the elements after it do not change the outcome. */
  lemma {:induction false} CollectFailsEarly<A, B>(xs: seq<A>, f: A -> Result<B>, n: nat)
    requires n <= |xs| && Collect(xs[..n], f).Err?
    ensures Collect(xs, f) == Collect(xs[..n], f)
    decreases |xs| - n
  {
    if n < |xs| {
      var m := |xs| - 1;
      assert xs[..m][..n] == xs[..n];
      CollectFailsEarly(xs[..m], f, n);
      CollectFailedFront(xs, f);
    } else {
      assert xs[..n] == xs;
    }
  }

  /** When the front fails, the whole fails the same way. */
  lemma CollectFailedFront<A, B>(xs: seq<A>, f: A -> Result<B>)
    requires |xs| >= 1 && Collect(xs[..|xs| - 1], f).Err?
    ensures Collect(xs, f) == Collect(xs[..|xs| - 1], f)
  {
  }
}
