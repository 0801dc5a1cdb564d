/**
  `ProgressDialogFragment`: a fluent `Builder` that records optional dialog
  settings, `create()` that freezes them into the fragment's argument bundle,
  and `onCreateDialog` that reads the bundle back into setter calls on a fresh
  progress dialog.

  The platform dialog is modelled as the record of the setters that were
  called on it (`DialogSettings`); a setter that was not called is `None`.
 */
module ProgressDialogFragment {
  import opened Wrappers
  import opened Bundles

  // ---------------------------------------------------------------------------
  // Bundle keys
  // ---------------------------------------------------------------------------

  const KeyIcon := "key_icon"
  const KeyTitleId := "key_title_id"
  const KeyTitle := "key_title"
  const KeyMessage := "key_message"
  const KeyStyle := "key_progress_style"
  const KeyIndeterminate := "key_indeterminate"
  const KeyCancelable := "key_cancelable"

  /** Every key the fragment writes or reads. */
  const AllKeys: seq<string> :=
    [KeyIcon, KeyTitleId, KeyTitle, KeyMessage, KeyStyle, KeyIndeterminate, KeyCancelable]

  /** The seven keys are pairwise distinct, so no `put` overwrites another setting. */
  lemma KeysDistinct()
    ensures |AllKeys| == 7
    ensures forall i, j :: 0 <= i < j < |AllKeys| ==> AllKeys[i] != AllKeys[j]
  {
  }

  /** A bundle that holds nothing but the fragment's own keys. */
  predicate OnlyKnownKeys(m: Bundle) {
    forall k :: k in m ==> k in AllKeys
  }

  /** The two bundles store the same thing (or nothing) under each of the seven keys. */
  predicate AgreeOnKnownKeys(m1: Bundle, m2: Bundle) {
    && Get(m1, KeyIcon) == Get(m2, KeyIcon)
    && Get(m1, KeyTitleId) == Get(m2, KeyTitleId)
    && Get(m1, KeyTitle) == Get(m2, KeyTitle)
    && Get(m1, KeyMessage) == Get(m2, KeyMessage)
    && Get(m1, KeyStyle) == Get(m2, KeyStyle)
    && Get(m1, KeyIndeterminate) == Get(m2, KeyIndeterminate)
    && Get(m1, KeyCancelable) == Get(m2, KeyCancelable)
  }

  /** Bundles of the fragment's own keys are equal as soon as they agree key by key. */
  lemma KnownKeysExtensionality(m1: Bundle, m2: Bundle)
    requires OnlyKnownKeys(m1) && OnlyKnownKeys(m2)
    requires AgreeOnKnownKeys(m1, m2)
    ensures m1 == m2
  {
    forall k | k in AllKeys
      ensures Get(m1, k) == Get(m2, k)
    {
      var i :| 0 <= i < |AllKeys| && AllKeys[i] == k;
      assert i in {0, 1, 2, 3, 4, 5, 6};
    }
    forall k | k in m1
      ensures k in m2 && m1[k] == m2[k]
    {
      assert Get(m1, k) == Get(m2, k);
    }
    forall k | k in m2
      ensures k in m1
    {
      assert Get(m1, k) == Get(m2, k);
    }
  }

  // ---------------------------------------------------------------------------
  // Builder
  // ---------------------------------------------------------------------------

  /** The builder's fields: values plus a presence flag for each optional setting. */
  datatype Builder = Builder(
    iconId: Int32,
    titleId: Int32,
    progressStyle: Int32,
    title: JString,
    message: JString,
    indeterminate: bool,
    cancelable: bool,
    hasIcon: bool,
    hasTitle: bool,
    hasMessage: bool,
    hasStyle: bool)

  /** `new Builder()`: Java defaults (0, null, false) except the two booleans that start `true`. */
  function NewBuilder(): (b: Builder)
    ensures !b.hasIcon && !b.hasTitle && !b.hasMessage && !b.hasStyle
    ensures b.indeterminate && b.cancelable
    ensures Arguments(b) == map[KeyIndeterminate := BoolV(true), KeyCancelable := BoolV(true)]
  {
    var b := Builder(0, 0, 0, None, None, true, true, false, false, false, false);
    assert Arguments(b).Keys == {KeyIndeterminate, KeyCancelable};
    b
  }

  /** `setIcon(int)`. The last ensures says that nothing but the icon and its flag changed. */
  function SetIcon(b: Builder, resourceId: Int32): (r: Builder)
    ensures r.iconId == resourceId && r.hasIcon
    ensures r.(iconId := b.iconId, hasIcon := b.hasIcon) == b
  {
    b.(iconId := resourceId, hasIcon := true)
  }

  /** `setTitle(String)`; a `null` title is stored too, and still marks a title as set. */
  function SetTitle(b: Builder, title: JString): (r: Builder)
    ensures r.title == title && r.hasTitle
    ensures r.(title := b.title, hasTitle := b.hasTitle) == b
  {
    b.(title := title, hasTitle := true)
  }

  /** `setTitle(int)`: the resource-id overload. */
  function SetTitleId(b: Builder, resourceId: Int32): (r: Builder)
    ensures r.titleId == resourceId && r.hasTitle
    ensures r.(titleId := b.titleId, hasTitle := b.hasTitle) == b
  {
    b.(titleId := resourceId, hasTitle := true)
  }

  /** `setMessage(String)`. */
  function SetMessage(b: Builder, message: JString): (r: Builder)
    ensures r.message == message && r.hasMessage
    ensures r.(message := b.message, hasMessage := b.hasMessage) == b
  {
    b.(message := message, hasMessage := true)
  }

  /** `setIndeterminate(boolean)`: no presence flag, the value is always written. */
  function SetIndeterminate(b: Builder, indeterminate: bool): (r: Builder)
    ensures r.indeterminate == indeterminate
    ensures r.(indeterminate := b.indeterminate) == b
  {
    b.(indeterminate := indeterminate)
  }

  /** `setProgressStyle(int)`. */
  function SetProgressStyle(b: Builder, style: Int32): (r: Builder)
    ensures r.progressStyle == style && r.hasStyle
    ensures r.(progressStyle := b.progressStyle, hasStyle := b.hasStyle) == b
  {
    b.(progressStyle := style, hasStyle := true)
  }

  /** `setCancelable(boolean)`: no presence flag, the value is always written. */
  function SetCancelable(b: Builder, cancelable: bool): (r: Builder)
    ensures r.cancelable == cancelable
    ensures r.(cancelable := b.cancelable) == b
  {
    b.(cancelable := cancelable)
  }

  // ---------------------------------------------------------------------------
  // create(): builder -> argument bundle
  // ---------------------------------------------------------------------------

  /**
    The bundle `create()` fills, one `put` after another in source order.
    Optional settings are written exactly when their flag is set; a title is
    written under exactly one key, the text key when the text is non-null and
    the id key otherwise; the two booleans are always written.
   */
  function Arguments(b: Builder): (args: Bundle)
    ensures KeyIcon in args <==> b.hasIcon
    ensures b.hasIcon ==> args[KeyIcon] == IntV(b.iconId)
    ensures KeyTitle in args <==> b.hasTitle && b.title.Some?
    ensures KeyTitle in args ==> args[KeyTitle] == StrV(b.title)
    ensures KeyTitleId in args <==> b.hasTitle && b.title.None?
    ensures KeyTitleId in args ==> args[KeyTitleId] == IntV(b.titleId)
    ensures KeyMessage in args <==> b.hasMessage
    ensures b.hasMessage ==> args[KeyMessage] == StrV(b.message)
    ensures KeyStyle in args <==> b.hasStyle
    ensures b.hasStyle ==> args[KeyStyle] == IntV(b.progressStyle)
    ensures KeyIndeterminate in args && args[KeyIndeterminate] == BoolV(b.indeterminate)
    ensures KeyCancelable in args && args[KeyCancelable] == BoolV(b.cancelable)
    ensures OnlyKnownKeys(args)
  {
    var args: Bundle := map[];
    var args := if b.hasIcon then args[KeyIcon := IntV(b.iconId)] else args;
    var args :=
      if !b.hasTitle then args
      else if b.title.None? then args[KeyTitleId := IntV(b.titleId)]
      else args[KeyTitle := StrV(b.title)];
    var args := if b.hasMessage then args[KeyMessage := StrV(b.message)] else args;
    var args := if b.hasStyle then args[KeyStyle := IntV(b.progressStyle)] else args;
    args[KeyIndeterminate := BoolV(b.indeterminate)][KeyCancelable := BoolV(b.cancelable)]
  }

  /** A fragment, seen only through the arguments attached to it (`null` when none were). */
  datatype Fragment = Fragment(arguments: Option<Bundle>)

  /** `create()`: a new fragment carrying the builder's arguments. */
  function Create(b: Builder): (f: Fragment)
    ensures f.arguments.Some?
    ensures OnlyKnownKeys(f.arguments.value)
    ensures KeyIndeterminate in f.arguments.value && KeyCancelable in f.arguments.value
  {
    Fragment(Some(Arguments(b)))
  }

  // ---------------------------------------------------------------------------
  // onCreateDialog(): argument bundle -> configured dialog
  // ---------------------------------------------------------------------------

  /** The two `setTitle` overloads of the platform dialog. */
  datatype Title = TitleId(id: Int32) | TitleText(text: JString)

  /**
    The setters `onCreateDialog` called: `None` means the setter was not called
    and the dialog keeps its own default. `cancelable` is set on the fragment
    rather than on the dialog.
   */
  datatype DialogSettings = DialogSettings(
    icon: Option<Int32>,
    title: Option<Title>,
    message: Option<JString>,
    progressStyle: Option<Int32>,
    indeterminate: bool,
    cancelable: bool)

  /**
    The body of `onCreateDialog` once `getArguments()` has produced a bundle.
    A setting whose key is absent is not applied; when both title keys are
    present the resource id is used; the two booleans are always applied.
   */
  function ApplyArguments(args: Bundle): (d: DialogSettings)
    ensures d.icon.Some? <==> KeyIcon in args
    ensures d.icon.Some? ==> d.icon.value == GetInt(args, KeyIcon)
    ensures d.title.None? <==> KeyTitleId !in args && KeyTitle !in args
    ensures KeyTitleId in args ==> d.title == Some(TitleId(GetInt(args, KeyTitleId)))
    ensures KeyTitleId !in args && KeyTitle in args ==> d.title == Some(TitleText(GetString(args, KeyTitle)))
    ensures d.message.Some? <==> KeyMessage in args
    ensures d.message.Some? ==> d.message.value == GetString(args, KeyMessage)
    ensures d.progressStyle.Some? <==> KeyStyle in args
    ensures d.progressStyle.Some? ==> d.progressStyle.value == GetInt(args, KeyStyle)
    ensures d.indeterminate == GetBoolean(args, KeyIndeterminate)
    ensures d.cancelable == GetBoolean(args, KeyCancelable)
  {
    DialogSettings(
      icon := if KeyIcon in args then Some(GetInt(args, KeyIcon)) else None,
      title :=
        if KeyTitleId in args then Some(TitleId(GetInt(args, KeyTitleId)))
        else if KeyTitle in args then Some(TitleText(GetString(args, KeyTitle)))
        else None,
      message := if KeyMessage in args then Some(GetString(args, KeyMessage)) else None,
      progressStyle := if KeyStyle in args then Some(GetInt(args, KeyStyle)) else None,
      indeterminate := GetBoolean(args, KeyIndeterminate),
      cancelable := GetBoolean(args, KeyCancelable))
  }

  /** Entries under keys other than the fragment's seven are never read. */
  lemma ApplyArgumentsIgnoresOtherKeys(args: Bundle, key: string, v: Value)
    requires key !in AllKeys
    ensures ApplyArguments(args[key := v]) == ApplyArguments(args)
  {
  }

  /** Why `onCreateDialog` can fail: the fragment was not made by `create()` and has no arguments. */
  datatype Error = MissingArguments

  /** `onCreateDialog`: dereferencing `getArguments()` fails when no bundle was attached. */
  function OnCreateDialog(f: Fragment): (r: Result<DialogSettings, Error>)
    ensures f.arguments.None? <==> r == Failure(MissingArguments)
    ensures f.arguments.Some? ==> r.Success? && r.value == ApplyArguments(f.arguments.value)
  {
    match f.arguments
    case None => Failure(MissingArguments)
    case Some(args) => Success(ApplyArguments(args))
  }

  // ---------------------------------------------------------------------------
  // Round trip
  // ---------------------------------------------------------------------------

  /**
    The dialog a builder describes: each optional setting present exactly when
    its flag is set, and a title that is the text when one was given and is
    non-null, and the resource id otherwise.
   */
  function Described(b: Builder): DialogSettings {
    DialogSettings(
      icon := if b.hasIcon then Some(b.iconId) else None,
      title :=
        if !b.hasTitle then None
        else if b.title.Some? then Some(TitleText(b.title))
        else Some(TitleId(b.titleId)),
      message := if b.hasMessage then Some(b.message) else None,
      progressStyle := if b.hasStyle then Some(b.progressStyle) else None,
      indeterminate := b.indeterminate,
      cancelable := b.cancelable)
  }

  /** Decoding what `create()` encoded gives back exactly the settings the builder describes. */
  lemma RoundTrip(b: Builder)
    ensures ApplyArguments(Arguments(b)) == Described(b)
  {
  }

  /** Showing a fragment made by `create()` never fails, and configures the described dialog. */
  lemma CreateThenShow(b: Builder)
    ensures OnCreateDialog(Create(b)) == Success(Described(b))
  {
    RoundTrip(b);
  }

  /** A fresh builder shows an indeterminate, cancelable dialog and touches no other setter. */
  lemma FreshBuilderDialog()
    ensures OnCreateDialog(Create(NewBuilder()))
         == Success(DialogSettings(None, None, None, None, true, true))
  {
    CreateThenShow(NewBuilder());
  }

  /** Decoding is faithful: two builders whose bundles decode alike produced the same bundle. */
  lemma ApplyArgumentsInjectiveOnCreated(b1: Builder, b2: Builder)
    requires ApplyArguments(Arguments(b1)) == ApplyArguments(Arguments(b2))
    ensures Arguments(b1) == Arguments(b2)
  {
    RoundTrip(b1);
    RoundTrip(b2);
    KnownKeysExtensionality(Arguments(b1), Arguments(b2));
  }

  // ---------------------------------------------------------------------------
  // Which bundles create() can produce
  // ---------------------------------------------------------------------------

  /** The shape of a bundle written by `create()`. */
  predicate WellFormed(args: Bundle) {
    && OnlyKnownKeys(args)
    && (KeyIcon in args ==> args[KeyIcon].IntV?)
    && (KeyTitleId in args ==> args[KeyTitleId].IntV? && KeyTitle !in args)
    && (KeyTitle in args ==> args[KeyTitle].StrV? && args[KeyTitle].s.Some?)
    && (KeyMessage in args ==> args[KeyMessage].StrV?)
    && (KeyStyle in args ==> args[KeyStyle].IntV?)
    && KeyIndeterminate in args && args[KeyIndeterminate].BoolV?
    && KeyCancelable in args && args[KeyCancelable].BoolV?
  }

  /** Every bundle `create()` writes is well formed. */
  lemma ArgumentsWellFormed(b: Builder)
    ensures WellFormed(Arguments(b))
  {
  }

  /**
    A builder that asks for the given dialog: the setters that were applied,
    replayed on a fresh builder.
   */
  function Replay(d: DialogSettings): Builder {
    var b := NewBuilder();
    var b := if d.icon.Some? then SetIcon(b, d.icon.value) else b;
    var b :=
      match d.title
      case None => b
      case Some(TitleId(id)) => SetTitleId(b, id)
      case Some(TitleText(t)) => SetTitle(b, t);
    var b := if d.message.Some? then SetMessage(b, d.message.value) else b;
    var b := if d.progressStyle.Some? then SetProgressStyle(b, d.progressStyle.value) else b;
    SetCancelable(SetIndeterminate(b, d.indeterminate), d.cancelable)
  }

  /**
    Conversely, decoding a well-formed bundle loses nothing: replaying the
    applied settings on a fresh builder re-creates the very same bundle.
   */
  lemma WellFormedRoundTrip(args: Bundle)
    requires WellFormed(args)
    ensures Arguments(Replay(ApplyArguments(args))) == args
  {
    KnownKeysExtensionality(Arguments(Replay(ApplyArguments(args))), args);
  }

  /** The well-formed bundles are exactly the ones `create()` can write. */
  lemma WellFormedIffCreated(args: Bundle)
    ensures WellFormed(args) <==> exists b :: Arguments(b) == args
  {
    if WellFormed(args) {
      WellFormedRoundTrip(args);
    }
  }

  /** Replaying a dialog whose title is not a null text describes that same dialog again. */
  lemma ReplayDescribes(d: DialogSettings)
    requires d.title != Some(TitleText(None))
    ensures Described(Replay(d)) == d
  {
  }

  /** `setTitle(null)` counts as a title: `create()` falls back to the resource id, 0 if none was set. */
  lemma NullTitleFallsBackToId(b: Builder)
    ensures ApplyArguments(Arguments(SetTitle(b, None))).title == Some(TitleId(b.titleId))
  {
  }

  // ---------------------------------------------------------------------------
  // Each setter's effect on the created bundle
  // ---------------------------------------------------------------------------

  lemma SetIconArguments(b: Builder, resourceId: Int32)
    ensures Arguments(SetIcon(b, resourceId)) == Arguments(b)[KeyIcon := IntV(resourceId)]
  {
    KnownKeysExtensionality(Arguments(SetIcon(b, resourceId)), Arguments(b)[KeyIcon := IntV(resourceId)]);
  }

  /** A non-null text title replaces whichever title key was written before. */
  lemma SetTitleArguments(b: Builder, title: string)
    ensures Arguments(SetTitle(b, Some(title)))
         == (Arguments(b) - {KeyTitleId})[KeyTitle := StrV(Some(title))]
  {
    KnownKeysExtensionality(
      Arguments(SetTitle(b, Some(title))), (Arguments(b) - {KeyTitleId})[KeyTitle := StrV(Some(title))]);
  }

  /** A null text title makes `create()` write the resource id, whatever it currently is. */
  lemma SetNullTitleArguments(b: Builder)
    ensures Arguments(SetTitle(b, None)) == (Arguments(b) - {KeyTitle})[KeyTitleId := IntV(b.titleId)]
  {
    KnownKeysExtensionality(
      Arguments(SetTitle(b, None)), (Arguments(b) - {KeyTitle})[KeyTitleId := IntV(b.titleId)]);
  }

  /** The resource id only reaches the bundle while no non-null text title is set. */
  lemma SetTitleIdArguments(b: Builder, resourceId: Int32)
    ensures b.title.Some? ==>
      Arguments(SetTitleId(b, resourceId)) == Arguments(b)[KeyTitle := StrV(b.title)]
    ensures b.title.None? ==>
      Arguments(SetTitleId(b, resourceId)) == Arguments(b)[KeyTitleId := IntV(resourceId)]
  {
    if b.title.Some? {
      KnownKeysExtensionality(
        Arguments(SetTitleId(b, resourceId)), Arguments(b)[KeyTitle := StrV(b.title)]);
    } else {
      KnownKeysExtensionality(
        Arguments(SetTitleId(b, resourceId)), Arguments(b)[KeyTitleId := IntV(resourceId)]);
    }
  }

  lemma SetMessageArguments(b: Builder, message: JString)
    ensures Arguments(SetMessage(b, message)) == Arguments(b)[KeyMessage := StrV(message)]
  {
    KnownKeysExtensionality(
      Arguments(SetMessage(b, message)), Arguments(b)[KeyMessage := StrV(message)]);
  }

  lemma SetIndeterminateArguments(b: Builder, indeterminate: bool)
    ensures Arguments(SetIndeterminate(b, indeterminate))
         == Arguments(b)[KeyIndeterminate := BoolV(indeterminate)]
  {
    KnownKeysExtensionality(
      Arguments(SetIndeterminate(b, indeterminate)), Arguments(b)[KeyIndeterminate := BoolV(indeterminate)]);
  }

  lemma SetProgressStyleArguments(b: Builder, style: Int32)
    ensures Arguments(SetProgressStyle(b, style)) == Arguments(b)[KeyStyle := IntV(style)]
  {
    KnownKeysExtensionality(
      Arguments(SetProgressStyle(b, style)), Arguments(b)[KeyStyle := IntV(style)]);
  }

  lemma SetCancelableArguments(b: Builder, cancelable: bool)
    ensures Arguments(SetCancelable(b, cancelable)) == Arguments(b)[KeyCancelable := BoolV(cancelable)]
  {
    KnownKeysExtensionality(
      Arguments(SetCancelable(b, cancelable)), Arguments(b)[KeyCancelable := BoolV(cancelable)]);
  }
}
