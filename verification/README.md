# ProgressDialogFragment configuration round trip

A Dafny model of `ProgressDialogFragment` from DialogFragmentBuilder. The
class is a progress-dialog fragment with a fluent `Builder`:

- the builder's setters record an icon, a title (text or resource id), a
  message, a progress style, and the `indeterminate` and `cancelable` flags;
- `create()` writes the settings that were given into the fragment's argument
  `Bundle`, under seven fixed string keys;
- `onCreateDialog` reads the bundle back and calls the matching setters on a
  fresh `ProgressDialog`.

The model is functional:

- `Builder` is an immutable record, and each setter returns an updated copy.
- A `Bundle` is a `map<string, Value>`.
- The platform dialog is the record of setters that `onCreateDialog` called
  (`DialogSettings`). A `None` field means that setter was not called.
- A Java `String` is `Option<string>`, with `None` for `null`. Ids and styles
  are 32-bit `Int32` values. The code does no arithmetic on them.

Files:

- `wrappers.dfy`: `Option` and `Result`.
- `bundles.dfy`: the bundle and its typed getters. These follow the platform's
  defaults: `getInt` gives 0, `getString` gives `null` and `getBoolean` gives
  `false` when the key is missing or holds another kind of value.
- `progress_dialog_fragment.dfy`: the keys, the builder, `create()`,
  `onCreateDialog` and the round-trip lemmas.
- `builder_chain.dfy`: a chain of setter calls as a sequence. It proves that
  the last call of each kind wins and that calls to different setters commute.
  It also proves that a non-null text title wins over a resource id, whatever
  the order of the calls.

When both title keys are present, `onCreateDialog` uses `KEY_TITLE_ID`
(`ApplyArguments`). `create()` never writes both keys, and it writes
`KEY_TITLE` whenever the text is non-null (`Arguments`, `WellFormed`). So on
every bundle `create()` writes, a non-null text title wins.

## Model

| member | source | states |
|---|---|---|
| ProgressDialogFragment.KeysDistinct | DialogFragmentBuilder/src/main/java/info/izumin/android/dialogfragmentbuilder/ProgressDialogFragment.java:37-41 | The seven bundle keys are pairwise distinct, so no `put` overwrites another setting's entry. |
| ProgressDialogFragment.NewBuilder | DialogFragmentBuilder/src/main/java/info/izumin/android/dialogfragmentbuilder/ProgressDialogFragment.java:73-77 | A fresh builder has no presence flag set and both booleans true. The bundle it creates holds exactly the two boolean keys, both true. |
| ProgressDialogFragment.SetIcon | DialogFragmentBuilder/src/main/java/info/izumin/android/dialogfragmentbuilder/ProgressDialogFragment.java:84-88 | Stores the icon id and raises `hasIcon`. Every other builder field is unchanged. |
| ProgressDialogFragment.SetTitle | DialogFragmentBuilder/src/main/java/info/izumin/android/dialogfragmentbuilder/ProgressDialogFragment.java:95-99 | Stores the text title, `null` included, and raises `hasTitle`. Every other builder field is unchanged. |
| ProgressDialogFragment.SetTitleId | DialogFragmentBuilder/src/main/java/info/izumin/android/dialogfragmentbuilder/ProgressDialogFragment.java:106-110 | Stores the title resource id and raises `hasTitle`. Every other builder field is unchanged. |
| ProgressDialogFragment.SetMessage | DialogFragmentBuilder/src/main/java/info/izumin/android/dialogfragmentbuilder/ProgressDialogFragment.java:117-121 | Stores the message and raises `hasMessage`. Every other builder field is unchanged. |
| ProgressDialogFragment.SetIndeterminate | DialogFragmentBuilder/src/main/java/info/izumin/android/dialogfragmentbuilder/ProgressDialogFragment.java:128-131 | Stores the flag. Every other builder field is unchanged. |
| ProgressDialogFragment.SetProgressStyle | DialogFragmentBuilder/src/main/java/info/izumin/android/dialogfragmentbuilder/ProgressDialogFragment.java:138-142 | Stores the style and raises `hasStyle`. Every other builder field is unchanged. |
| ProgressDialogFragment.SetCancelable | DialogFragmentBuilder/src/main/java/info/izumin/android/dialogfragmentbuilder/ProgressDialogFragment.java:149-152 | Stores the flag. Every other builder field is unchanged. |
| ProgressDialogFragment.Arguments | DialogFragmentBuilder/src/main/java/info/izumin/android/dialogfragmentbuilder/ProgressDialogFragment.java:161-175 | The icon, message and style keys are present if and only if their flag is set, and they hold the builder's values. `KEY_TITLE` is present exactly when a title was set and the text is non-null. `KEY_TITLE_ID` is present exactly when a title was set and the text is null. Both booleans are always present with the builder's values. No other key is written. |
| ProgressDialogFragment.Create | DialogFragmentBuilder/src/main/java/info/izumin/android/dialogfragmentbuilder/ProgressDialogFragment.java:158-179 | The created fragment always carries arguments. They hold only the fragment's keys and always include the two booleans. |
| ProgressDialogFragment.ApplyArguments | DialogFragmentBuilder/src/main/java/info/izumin/android/dialogfragmentbuilder/ProgressDialogFragment.java:49-66 | Icon, message and style are applied if and only if their key is present, with the getter's value. If both title keys are present, the resource id is applied. If only `KEY_TITLE` is present, the text is applied. If neither is present, no title is applied. Both booleans are always applied. |
| ProgressDialogFragment.ApplyArgumentsIgnoresOtherKeys | DialogFragmentBuilder/src/main/java/info/izumin/android/dialogfragmentbuilder/ProgressDialogFragment.java:49-66 | An entry under any key other than the seven does not change the configured dialog. |
| ProgressDialogFragment.OnCreateDialog | DialogFragmentBuilder/src/main/java/info/izumin/android/dialogfragmentbuilder/ProgressDialogFragment.java:44-69 | Fails exactly when the fragment has no arguments, which is where the source dereferences `null`. Otherwise it applies the bundle. |
| ProgressDialogFragment.RoundTrip | DialogFragmentBuilder/src/main/java/info/izumin/android/dialogfragmentbuilder/ProgressDialogFragment.java:44-179 | Decoding the bundle `create()` wrote gives the dialog the builder describes. Icon, message and style are present if and only if flagged. The title is the non-null text, otherwise the id. Both booleans are copied. |
| ProgressDialogFragment.CreateThenShow | DialogFragmentBuilder/src/main/java/info/izumin/android/dialogfragmentbuilder/ProgressDialogFragment.java:44-179 | Showing a fragment made by `create()` never fails. It configures exactly the described dialog. |
| ProgressDialogFragment.FreshBuilderDialog | DialogFragmentBuilder/src/main/java/info/izumin/android/dialogfragmentbuilder/ProgressDialogFragment.java:44-179 | A fresh builder's fragment shows an indeterminate, cancelable dialog. No other setter is called. |
| ProgressDialogFragment.ApplyArgumentsInjectiveOnCreated | DialogFragmentBuilder/src/main/java/info/izumin/android/dialogfragmentbuilder/ProgressDialogFragment.java:44-179 | Decoding loses nothing. Two created bundles that configure the same dialog are equal. |
| ProgressDialogFragment.ArgumentsWellFormed | DialogFragmentBuilder/src/main/java/info/izumin/android/dialogfragmentbuilder/ProgressDialogFragment.java:161-175 | Every bundle `create()` writes is well formed. It holds only known keys, each with the right kind of value. It has at most one title key and a non-null text under `KEY_TITLE`. It always has both booleans. |
| ProgressDialogFragment.WellFormedRoundTrip | DialogFragmentBuilder/src/main/java/info/izumin/android/dialogfragmentbuilder/ProgressDialogFragment.java:44-179 | Decode a well-formed bundle, then replay the applied setters on a fresh builder. The result creates that same bundle again. |
| ProgressDialogFragment.WellFormedIffCreated | DialogFragmentBuilder/src/main/java/info/izumin/android/dialogfragmentbuilder/ProgressDialogFragment.java:161-175 | A bundle is well formed if and only if some builder's `create()` writes it. |
| ProgressDialogFragment.ReplayDescribes | DialogFragmentBuilder/src/main/java/info/izumin/android/dialogfragmentbuilder/ProgressDialogFragment.java:84-152 | Replaying a dialog's setters on a fresh builder describes that same dialog. The one exception is a null text title. |
| ProgressDialogFragment.NullTitleFallsBackToId | DialogFragmentBuilder/src/main/java/info/izumin/android/dialogfragmentbuilder/ProgressDialogFragment.java:165-168 | After `setTitle(null)` the dialog gets the builder's current resource-id title. |
| ProgressDialogFragment.SetIconArguments | DialogFragmentBuilder/src/main/java/info/izumin/android/dialogfragmentbuilder/ProgressDialogFragment.java:84-88 | After `setIcon`, the created bundle is the old one with `KEY_ICON` set to the id, and nothing else differs. |
| ProgressDialogFragment.SetTitleArguments | DialogFragmentBuilder/src/main/java/info/izumin/android/dialogfragmentbuilder/ProgressDialogFragment.java:95-99 | After `setTitle` with a non-null text, the created bundle drops `KEY_TITLE_ID` and holds the text under `KEY_TITLE`. Nothing else differs. |
| ProgressDialogFragment.SetNullTitleArguments | DialogFragmentBuilder/src/main/java/info/izumin/android/dialogfragmentbuilder/ProgressDialogFragment.java:95-99 | After `setTitle(null)`, the created bundle drops `KEY_TITLE` and holds the current resource id under `KEY_TITLE_ID`. Nothing else differs. |
| ProgressDialogFragment.SetTitleIdArguments | DialogFragmentBuilder/src/main/java/info/izumin/android/dialogfragmentbuilder/ProgressDialogFragment.java:106-110 | `setTitle(int)` reaches the bundle only while the text title is null. Otherwise the bundle keeps the text. |
| ProgressDialogFragment.SetMessageArguments | DialogFragmentBuilder/src/main/java/info/izumin/android/dialogfragmentbuilder/ProgressDialogFragment.java:117-121 | After `setMessage`, the created bundle differs only in `KEY_MESSAGE`. |
| ProgressDialogFragment.SetIndeterminateArguments | DialogFragmentBuilder/src/main/java/info/izumin/android/dialogfragmentbuilder/ProgressDialogFragment.java:128-131 | After `setIndeterminate`, the created bundle differs only in `KEY_INDETERMINATE`. |
| ProgressDialogFragment.SetProgressStyleArguments | DialogFragmentBuilder/src/main/java/info/izumin/android/dialogfragmentbuilder/ProgressDialogFragment.java:138-142 | After `setProgressStyle`, the created bundle differs only in `KEY_STYLE`. |
| ProgressDialogFragment.SetCancelableArguments | DialogFragmentBuilder/src/main/java/info/izumin/android/dialogfragmentbuilder/ProgressDialogFragment.java:149-152 | After `setCancelable`, the created bundle differs only in `KEY_CANCELABLE`. |
| BuilderChain.StepsCommute | DialogFragmentBuilder/src/main/java/info/izumin/android/dialogfragmentbuilder/ProgressDialogFragment.java:84-152 | Calls to two different setters give the same builder in either order. |
| BuilderChain.LaterCallOverrides | DialogFragmentBuilder/src/main/java/info/izumin/android/dialogfragmentbuilder/ProgressDialogFragment.java:84-152 | A second call to the same setter erases every trace of the first. |
| BuilderChain.ChainIcon | DialogFragmentBuilder/src/main/java/info/izumin/android/dialogfragmentbuilder/ProgressDialogFragment.java:84-88 | After any chain of calls, the icon is the last `setIcon` argument, or the old icon if there was no such call. It is flagged exactly when it was flagged before or some call set it. |
| BuilderChain.ChainTitle | DialogFragmentBuilder/src/main/java/info/izumin/android/dialogfragmentbuilder/ProgressDialogFragment.java:95-110 | After any chain, the text and the id are each the last argument of their own overload. The title is flagged exactly when it was flagged before or either overload was called. |
| BuilderChain.ChainMessage | DialogFragmentBuilder/src/main/java/info/izumin/android/dialogfragmentbuilder/ProgressDialogFragment.java:117-121 | After any chain, the message is the last `setMessage` argument. It is flagged exactly when some call set it or it was flagged before. |
| BuilderChain.ChainStyle | DialogFragmentBuilder/src/main/java/info/izumin/android/dialogfragmentbuilder/ProgressDialogFragment.java:138-142 | After any chain, the style is the last `setProgressStyle` argument. It is flagged exactly when some call set it or it was flagged before. |
| BuilderChain.ChainBooleans | DialogFragmentBuilder/src/main/java/info/izumin/android/dialogfragmentbuilder/ProgressDialogFragment.java:128-152 | After any chain, `indeterminate` and `cancelable` are the last values given, or their old values if no call set them. |
| BuilderChain.ChainDescribes | DialogFragmentBuilder/src/main/java/info/izumin/android/dialogfragmentbuilder/ProgressDialogFragment.java:71-152 | A chain on a fresh builder describes the requested dialog. Each setting is its last value. A non-null last text title wins. Any other title call gives the resource id, which is 0 if `setTitle(int)` was never called. Both booleans default to true. |
| BuilderChain.ChainThenShow | DialogFragmentBuilder/src/main/java/info/izumin/android/dialogfragmentbuilder/ProgressDialogFragment.java:44-179 | Chain setters on a fresh builder, call `create()`, then show the fragment. This configures exactly the requested dialog. |
| BuilderChain.TextTitleWins | DialogFragmentBuilder/src/main/java/info/izumin/android/dialogfragmentbuilder/ProgressDialogFragment.java:165-168 | Suppose the last `setTitle(String)` call gave a non-null text. Then the dialog's title is that text, however many `setTitle(int)` calls come before or after it. |

## Left out

- Android lifecycle and platform calls are not modelled: `DialogFragment`, `getActivity()`, `setArguments`/`getArguments`, and the `savedInstanceState` parameter (the source ignores it). A fragment is its optional argument bundle. The dialog is the record of setters called on it.
- The `ProgressDialog` widget's rendering and its own defaults are not modelled. An unapplied setting is `None`.
- The meaning of `progressStyle` values such as `STYLE_SPINNER` is not modelled. A style is an opaque `Int32`.
- Resolving icon and title resource ids is a platform lookup, so ids are opaque `Int32` values. In particular, the model does not say what the platform does with title id 0, which is what `setTitle(null)` without `setTitle(int)` leads to.
- Max, progress, `setProgress` and `updateProgress` are not modelled. This variant of the class has no such fields or methods.
- The builder returning `this` for chaining is not modelled as object identity. Setters return an updated value. `BuilderChain` models a chain of calls as a sequence.
- `onCreateDialog` applies its setters in a fixed order. That order does not affect the result, because each setter touches its own field. The model records which setters were called, not their order.
