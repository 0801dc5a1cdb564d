/**
  A chain of setter calls on one `ProgressDialogFragment.Builder`
  (`new Builder().setTitle(..).setIcon(..)...`), and what it leaves behind:
  for every setting the last call of its kind wins, calls of different kinds
  commute, and a non-null text title beats a resource-id title whatever the
  order of the two calls.
 */
module BuilderChain {
  import opened Wrappers
  import opened Bundles
  import F = ProgressDialogFragment

  /** One fluent call, named after the builder method it stands for. */
  datatype Call =
    | SetIcon(resourceId: Int32)
    | SetTitle(title: JString)
    | SetTitleId(titleId: Int32)
    | SetMessage(message: JString)
    | SetIndeterminate(indeterminate: bool)
    | SetProgressStyle(style: Int32)
    | SetCancelable(cancelable: bool)

  /** The builder method a call invokes. */
  function Step(b: F.Builder, c: Call): F.Builder {
    match c
    case SetIcon(id) => F.SetIcon(b, id)
    case SetTitle(t) => F.SetTitle(b, t)
    case SetTitleId(id) => F.SetTitleId(b, id)
    case SetMessage(m) => F.SetMessage(b, m)
    case SetIndeterminate(v) => F.SetIndeterminate(b, v)
    case SetProgressStyle(s) => F.SetProgressStyle(b, s)
    case SetCancelable(v) => F.SetCancelable(b, v)
  }

  /** The builder after `calls`, applied left to right, have been chained on `b`. */
  function Chain(b: F.Builder, calls: seq<Call>): F.Builder
    decreases |calls|
  {
    if calls == [] then b
    else Step(Chain(b, calls[..|calls| - 1]), calls[|calls| - 1])
  }

  /** The argument of the last call in `calls` that `pick` accepts, if there is one. */
  function Last<T>(calls: seq<Call>, pick: Call -> Option<T>): Option<T>
    decreases |calls|
  {
    if calls == [] then None
    else if pick(calls[|calls| - 1]).Some? then pick(calls[|calls| - 1])
    else Last(calls[..|calls| - 1], pick)
  }

  /** Accepts a call to either `setTitle` overload. */
  function AnyTitleArg(c: Call): Option<Call> {
    if c.SetTitle? || c.SetTitleId? then Some(c) else None
  }

  function IconArg(c: Call): Option<Int32> {
    if c.SetIcon? then Some(c.resourceId) else None
  }

  function TitleArg(c: Call): Option<JString> {
    if c.SetTitle? then Some(c.title) else None
  }

  function TitleIdArg(c: Call): Option<Int32> {
    if c.SetTitleId? then Some(c.titleId) else None
  }

  function MessageArg(c: Call): Option<JString> {
    if c.SetMessage? then Some(c.message) else None
  }

  function IndeterminateArg(c: Call): Option<bool> {
    if c.SetIndeterminate? then Some(c.indeterminate) else None
  }

  function StyleArg(c: Call): Option<Int32> {
    if c.SetProgressStyle? then Some(c.style) else None
  }

  function CancelableArg(c: Call): Option<bool> {
    if c.SetCancelable? then Some(c.cancelable) else None
  }

  /** Which builder method a call is: the two `setTitle` overloads are different methods. */
  function Kind(c: Call): nat {
    match c
    case SetIcon(_) => 0
    case SetTitle(_) => 1
    case SetTitleId(_) => 2
    case SetMessage(_) => 3
    case SetIndeterminate(_) => 4
    case SetProgressStyle(_) => 5
    case SetCancelable(_) => 6
  }

  /** Calls to two different setters can be chained in either order. */
  lemma StepsCommute(b: F.Builder, c1: Call, c2: Call)
    requires Kind(c1) != Kind(c2)
    ensures Step(Step(b, c1), c2) == Step(Step(b, c2), c1)
  {
  }

  /** A second call to the same setter overrides the first entirely. */
  lemma LaterCallOverrides(b: F.Builder, c1: Call, c2: Call)
    requires Kind(c1) == Kind(c2)
    ensures Step(Step(b, c1), c2) == Step(b, c2)
  {
  }

  /**
    A builder field that the calls accepted by `pick` overwrite with their
    argument, and that every other call leaves alone, ends up holding the
    argument of the last such call, or its old value when there is none.
   */
  lemma {:induction false} ChainField<T>(b: F.Builder, calls: seq<Call>, field: F.Builder -> T, pick: Call -> Option<T>)
    requires forall b': F.Builder, c: Call :: field(Step(b', c)) == pick(c).GetOr(field(b'))
    ensures field(Chain(b, calls)) == Last(calls, pick).GetOr(field(b))
    decreases |calls|
  {
    if calls != [] {
      ChainField(b, calls[..|calls| - 1], field, pick);
    }
  }

  /**
    A presence flag that the calls accepted by `pick` raise, and that every
    other call leaves alone, is raised after a chain exactly when it was
    before or some call in the chain raised it.
   */
  lemma {:induction false} ChainFlag<T>(b: F.Builder, calls: seq<Call>, flag: F.Builder -> bool, pick: Call -> Option<T>)
    requires forall b': F.Builder, c: Call :: flag(Step(b', c)) == (pick(c).Some? || flag(b'))
    ensures flag(Chain(b, calls)) == (flag(b) || Last(calls, pick).Some?)
    decreases |calls|
  {
    if calls != [] {
      ChainFlag(b, calls[..|calls| - 1], flag, pick);
    }
  }

  /** The icon after a chain: the last `setIcon` argument, and flagged when any call set it. */
  lemma {:induction false} ChainIcon(b: F.Builder, calls: seq<Call>)
    ensures Chain(b, calls).iconId == Last(calls, IconArg).GetOr(b.iconId)
    ensures Chain(b, calls).hasIcon == (b.hasIcon || Last(calls, IconArg).Some?)
  {
    var value, flag := (b': F.Builder) => b'.iconId, (b': F.Builder) => b'.hasIcon;
    forall b': F.Builder, c: Call
      ensures value(Step(b', c)) == IconArg(c).GetOr(value(b'))
      ensures flag(Step(b', c)) == (IconArg(c).Some? || flag(b'))
    {
      match c
      case SetIcon(_) =>
      case _ =>
    }
    ChainField(b, calls, value, IconArg);
    ChainFlag(b, calls, flag, IconArg);
  }

  /** Both title fields after a chain; the title is flagged when either overload was called. */
  lemma {:induction false} ChainTitle(b: F.Builder, calls: seq<Call>)
    ensures Chain(b, calls).title == Last(calls, TitleArg).GetOr(b.title)
    ensures Chain(b, calls).titleId == Last(calls, TitleIdArg).GetOr(b.titleId)
    ensures Chain(b, calls).hasTitle == (b.hasTitle || Last(calls, AnyTitleArg).Some?)
  {
    var text, id, flag := (b': F.Builder) => b'.title, (b': F.Builder) => b'.titleId, (b': F.Builder) => b'.hasTitle;
    forall b': F.Builder, c: Call
      ensures text(Step(b', c)) == TitleArg(c).GetOr(text(b'))
      ensures id(Step(b', c)) == TitleIdArg(c).GetOr(id(b'))
      ensures flag(Step(b', c)) == (AnyTitleArg(c).Some? || flag(b'))
    {
      match c
      case SetTitle(_) =>
      case SetTitleId(_) =>
      case _ =>
    }
    ChainField(b, calls, text, TitleArg);
    ChainField(b, calls, id, TitleIdArg);
    ChainFlag(b, calls, flag, AnyTitleArg);
  }

  /** The message after a chain. */
  lemma {:induction false} ChainMessage(b: F.Builder, calls: seq<Call>)
    ensures Chain(b, calls).message == Last(calls, MessageArg).GetOr(b.message)
    ensures Chain(b, calls).hasMessage == (b.hasMessage || Last(calls, MessageArg).Some?)
  {
    var value, flag := (b': F.Builder) => b'.message, (b': F.Builder) => b'.hasMessage;
    forall b': F.Builder, c: Call
      ensures value(Step(b', c)) == MessageArg(c).GetOr(value(b'))
      ensures flag(Step(b', c)) == (MessageArg(c).Some? || flag(b'))
    {
      match c
      case SetMessage(_) =>
      case _ =>
    }
    ChainField(b, calls, value, MessageArg);
    ChainFlag(b, calls, flag, MessageArg);
  }

  /** The progress style after a chain. */
  lemma {:induction false} ChainStyle(b: F.Builder, calls: seq<Call>)
    ensures Chain(b, calls).progressStyle == Last(calls, StyleArg).GetOr(b.progressStyle)
    ensures Chain(b, calls).hasStyle == (b.hasStyle || Last(calls, StyleArg).Some?)
  {
    var value, flag := (b': F.Builder) => b'.progressStyle, (b': F.Builder) => b'.hasStyle;
    forall b': F.Builder, c: Call
      ensures value(Step(b', c)) == StyleArg(c).GetOr(value(b'))
      ensures flag(Step(b', c)) == (StyleArg(c).Some? || flag(b'))
    {
      match c
      case SetProgressStyle(_) =>
      case _ =>
    }
    ChainField(b, calls, value, StyleArg);
    ChainFlag(b, calls, flag, StyleArg);
  }

  /** The two always-written booleans after a chain. */
  lemma {:induction false} ChainBooleans(b: F.Builder, calls: seq<Call>)
    ensures Chain(b, calls).indeterminate == Last(calls, IndeterminateArg).GetOr(b.indeterminate)
    ensures Chain(b, calls).cancelable == Last(calls, CancelableArg).GetOr(b.cancelable)
  {
    var indeterminate, cancelable := (b': F.Builder) => b'.indeterminate, (b': F.Builder) => b'.cancelable;
    forall b': F.Builder, c: Call
      ensures indeterminate(Step(b', c)) == IndeterminateArg(c).GetOr(indeterminate(b'))
      ensures cancelable(Step(b', c)) == CancelableArg(c).GetOr(cancelable(b'))
    {
      match c
      case SetIndeterminate(_) =>
      case SetCancelable(_) =>
      case _ =>
    }
    ChainField(b, calls, indeterminate, IndeterminateArg);
    ChainField(b, calls, cancelable, CancelableArg);
  }

  /** `Last` picks the call at `i` when no later call is accepted. */
  lemma {:induction false} LastAt<T>(calls: seq<Call>, pick: Call -> Option<T>, i: nat)
    requires i < |calls| && pick(calls[i]).Some?
    requires forall j :: i < j < |calls| ==> pick(calls[j]).None?
    ensures Last(calls, pick) == pick(calls[i])
    decreases |calls|
  {
    if i < |calls| - 1 {
      var init := calls[..|calls| - 1];
      assert forall j :: i < j < |init| ==> init[j] == calls[j];
      LastAt(init, pick, i);
    }
  }

  /**
    The dialog a chain on a fresh builder asks for: each optional setting is
    the last value given for it; a non-null text title is shown whenever the
    last `setTitle(String)` call gave one, and otherwise a title call of
    either kind shows the resource id (0 when `setTitle(int)` was never called).
   */
  function Requested(calls: seq<Call>): F.DialogSettings {
    var text := Last(calls, TitleArg);
    var id := Last(calls, TitleIdArg);
    F.DialogSettings(
      icon := Last(calls, IconArg),
      title :=
        if text.Some? && text.value.Some? then Some(F.TitleText(text.value))
        else if Last(calls, AnyTitleArg).Some? then Some(F.TitleId(id.GetOr(0)))
        else None,
      message := Last(calls, MessageArg),
      progressStyle := Last(calls, StyleArg),
      indeterminate := Last(calls, IndeterminateArg).GetOr(true),
      cancelable := Last(calls, CancelableArg).GetOr(true))
  }

  /** A chain on a fresh builder describes the requested dialog. */
  lemma ChainDescribes(calls: seq<Call>)
    ensures F.Described(Chain(F.NewBuilder(), calls)) == Requested(calls)
  {
    var b := F.NewBuilder();
    ChainIcon(b, calls);
    ChainTitle(b, calls);
    ChainMessage(b, calls);
    ChainStyle(b, calls);
    ChainBooleans(b, calls);
  }

  /** Chaining setters on a fresh builder, creating the fragment and showing it configures the requested dialog. */
  lemma ChainThenShow(calls: seq<Call>)
    ensures F.OnCreateDialog(F.Create(Chain(F.NewBuilder(), calls))) == Success(Requested(calls))
  {
    ChainDescribes(calls);
    F.CreateThenShow(Chain(F.NewBuilder(), calls));
  }

  /**
    Title precedence: once `setTitle(String)` has been called with a non-null
    text and not called again, that text is the dialog's title, however many
    `setTitle(int)` calls come before or after it.
   */
  lemma TextTitleWins(b: F.Builder, calls: seq<Call>, i: nat)
    requires i < |calls| && calls[i].SetTitle? && calls[i].title.Some?
    requires forall j :: i < j < |calls| ==> !calls[j].SetTitle?
    ensures F.Described(Chain(b, calls)).title == Some(F.TitleText(calls[i].title))
  {
    LastAt(calls, TitleArg, i);
    ChainTitle(b, calls);
  }
}
