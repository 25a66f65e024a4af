/**
 * The message built from a class-validator error forest
 * (`formatClassValidatorIssues`): every constraint message of every node,
 * labelled with the node's property, in pre-order, joined into one sentence.
 */
module ValidationFormat {
  import opened Text

  /**
   * One validation error node. `constraints` lists the values of the
   * node's constraint object in insertion order; an absent constraint
   * object or child list contributes exactly what an empty one does.
   */
  datatype ValidationError = ValidationError(
    property: string,
    constraints: seq<string>,
    children: seq<ValidationError>)

  const Arrow: string := " → "

  /** "<property> → <msg>" for one constraint message. */
  function Label(property: string, msg: string): string {
    property + Arrow + msg
  }

  /** The node's own messages, in the order of its constraints. */
  function Labelled(property: string, constraints: seq<string>): (r: seq<string>)
    ensures |r| == |constraints|
    ensures forall i :: 0 <= i < |r| ==> r[i] == Label(property, constraints[i])
  {
    if constraints == [] then []
    else [Label(property, constraints[0])] + Labelled(property, constraints[1..])
  }

  /** The messages the recursive `walk` pushes for a forest, in visiting order. */
  function Messages(errs: seq<ValidationError>): seq<string>
    decreases errs
  {
    if errs == [] then []
    else
      Labelled(errs[0].property, errs[0].constraints)
      + Messages(errs[0].children)
      + Messages(errs[1..])
  }

  /** What one call of `walk` on `e` pushes. */
  function Walk(e: ValidationError): seq<string> {
    Messages([e])
  }

  /** The number of constraints in a forest, counted independently. */
  function ConstraintCount(errs: seq<ValidationError>): nat
    decreases errs
  {
    if errs == [] then 0
    else |errs[0].constraints| + ConstraintCount(errs[0].children) + ConstraintCount(errs[1..])
  }

  /** The full message of `formatClassValidatorIssues(errors)`. */
  function FormatIssues(errs: seq<ValidationError>): (r: string)
    ensures StartsWith(r, "Validation failed: ")
    ensures r[|r| - 1] == '.'
    ensures r[19..|r| - 1] == Join(Messages(errs), "; ")
  {
    "Validation failed: " + Join(Messages(errs), "; ") + "."
  }

  /** Pre-order: a node's own messages come before its children's, which come before its later siblings'. */
  lemma {:induction false} WalkIsPreOrder(e: ValidationError, rest: seq<ValidationError>)
    ensures Walk(e) == Labelled(e.property, e.constraints) + Messages(e.children)
    ensures Messages([e] + rest) == Walk(e) + Messages(rest)
  {
    assert ([e] + rest)[0] == e && ([e] + rest)[1..] == rest;
    assert [e][0] == e && [e][1..] == [];
    assert Messages([e]) == Labelled(e.property, e.constraints) + Messages(e.children) + Messages([]);
  }

  /** Top-level errors are processed in input order: the messages of a concatenation concatenate. */
  lemma {:induction false} MessagesAppend(a: seq<ValidationError>, b: seq<ValidationError>)
    ensures Messages(a + b) == Messages(a) + Messages(b)
    decreases a
  {
    if a == [] {
      assert a + b == b;
    } else {
      assert (a + b)[0] == a[0] && (a + b)[1..] == a[1..] + b;
      MessagesAppend(a[1..], b);
    }
  }

  /** The forest's messages are the concatenation of each top-level error's walk. */
  lemma {:induction false} MessagesOfForest(errs: seq<ValidationError>, i: nat)
    requires i < |errs|
    ensures Messages(errs) == Messages(errs[..i]) + Walk(errs[i]) + Messages(errs[i + 1..])
  {
    assert errs == errs[..i] + ([errs[i]] + errs[i + 1..]);
    MessagesAppend(errs[..i], [errs[i]] + errs[i + 1..]);
    WalkIsPreOrder(errs[i], errs[i + 1..]);
  }

  /** One message per constraint of the forest. */
  lemma {:induction false} MessageCount(errs: seq<ValidationError>)
    ensures |Messages(errs)| == ConstraintCount(errs)
    decreases errs
  {
    if errs != [] {
      MessageCount(errs[0].children);
      MessageCount(errs[1..]);
    }
  }

  /** A node without constraints contributes nothing itself, but its children are still walked. */
  lemma ChildrenOfSilentNode(e: ValidationError)
    requires e.constraints == []
    ensures Walk(e) == Messages(e.children)
  {
    WalkIsPreOrder(e, []);
  }

  /** Every message has the "<property> → <msg>" shape, for some property text and some message text. */
  lemma {:induction false} MessagesAreLabelled(errs: seq<ValidationError>, k: nat)
    requires k < |Messages(errs)|
    ensures exists p: string, m: string :: Messages(errs)[k] == Label(p, m)
    decreases errs
  {
    var own := Labelled(errs[0].property, errs[0].constraints);
    var kids := Messages(errs[0].children);
    if k < |own| {
      assert Messages(errs)[k] == Label(errs[0].property, errs[0].constraints[k]);
    } else if k < |own| + |kids| {
      MessagesAreLabelled(errs[0].children, k - |own|);
      assert Messages(errs)[k] == kids[k - |own|];
    } else {
      MessagesAreLabelled(errs[1..], k - |own| - |kids|);
      assert Messages(errs)[k] == Messages(errs[1..])[k - |own| - |kids|];
    }
  }
}
