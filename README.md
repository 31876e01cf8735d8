# GraphCalcBot conversation controller, in Dafny

This project models the core of a Telegram bot that plots functions a user
types as text (`main.py`). The bot keeps one value per user,
`context.user_data['state']`: `None`, `'add_explicit'`, `'add_implicit'` or
`'add_3d'`. The three "Добавить … Функцию" menu buttons set it. The next
ordinary text is then handled by `handle_function_input` in that mode:

- an explicit function `y = f(x)` is sympified and sampled at 400 points;
- an implicit "function" always draws the unit circle;
- a 3D function is drawn only if it is one of three fixed formulas.

Afterwards the state is reset to `None`, except when the 3D formula is
unknown. Which handler answers a message is fixed by the order in which
`main()` registers them.

Modules:

- `Wrappers`: `Option` and `Result`. `Err(m)` is a raised exception with `str(e) == m`.
- `Text`: Python's `str.strip()`, written as CPython's two index scans, and
  `str.replace(old, new)`.
- `Sampling`: `np.linspace(-10, 10, 400)` over the reals, `np.meshgrid`, and
  the list comprehension that evaluates the explicit expression at every
  sample.
- `Routing`: the handler registration order of `main()` as a function from a
  message to its handler, plus the reply keyboards' buttons.
- `Render`: the three branches of the `try` block in `handle_function_input`.
  Each takes sympy, numpy, matplotlib and the file system as a `Libraries`
  parameter: what `sympify` gives for each equation, and whether drawing,
  saving and sending ended with the file saved, the file missing, or an
  exception. The branches give back the reply or the exception.
- `Controller`: the class `Bot`. Its field `states: map<UserId, Mode>` is
  every user's `user_data['state']`, and a missing key reads as `None`
  (`Mode.Idle`). It has one method per handler. `Respond` is the pure
  step function the methods are proved against. `Run` folds `Respond` over
  one user's messages. Lemmas about `Run` state what the conversation
  guarantees.

Quirks of main.py the model keeps:

- one sample whose value cannot be computed makes the whole explicit request
  fail with that sample's exception;
- implicit mode ignores the text apart from the title and always draws the
  zero contour of `X**2 + Y**2 - 1`;
- 3D mode accepts only three exact formula strings after `strip()`, and the
  3D prompt's own example "z = sin(x) * cos(y)" is not one of them;
- an unknown 3D formula returns before the reset, so the state stays `'add_3d'`;
- the menu filters are regexes `'^label$'`. Without MULTILINE, Python's `$` also
  matches before a final newline, so a menu label followed by one `"\n"` still
  reaches its handler;
- the main keyboard's "Помощь" button has no handler of its own and is treated
  as a formula;
- "Очистить" only answers and leaves a pending mode in place;
- formulas go straight to `sympify`.

## Model

| member | source | states |
|---|---|---|
| `Text.Strip` | main.py:121 | `text.strip()` is stripped (no leading or trailing whitespace) and is the slice of the text that lies between its leading whitespace and its trailing whitespace |
| `Text.IsSpace` | main.py:121 | the characters `str.isspace()` accepts, which `strip()` removes: ASCII tab to carriage return, U+001C to space, U+0085, U+00A0, U+1680, U+2000 to U+200A, U+2028, U+2029, U+202F, U+205F, U+3000 |
| `Text.AsciiSpaces` | main.py:121 | on ASCII, whitespace is exactly `string.whitespace` plus the four separators U+001C to U+001F |
| `Text.SkipSpaces` | main.py:121 | the left scan of `strip()` stops at the first non-whitespace index, with only whitespace before it |
| `Text.SkipSpacesBack` | main.py:121 | the right scan of `strip()` stops just after the last non-whitespace character, with only whitespace after it |
| `Text.StripPadded` | main.py:146 | whitespace, then a stripped text, then whitespace: `strip()` returns exactly the stripped text |
| `Text.StripIdempotent` | main.py:146 | stripping twice is stripping once |
| `Text.ReplaceWithoutOccurrence` | main.py:96 | `replace` leaves a text in which the pattern never occurs unchanged |
| `Text.Replace` | main.py:96 | `str.replace(old, new)` for a non-empty `old`: a replacement no longer than the pattern (here "" for "y =") never makes the text longer, and one at least as long never makes it shorter |
| `Text.ReplaceFirstOccurrence` | main.py:96 | for any text, everything before the first occurrence of the pattern is copied, that occurrence is replaced, and the pass continues after it; with `ReplaceWithoutOccurrence` this fixes the result on every input as Python's single left-to-right pass |
| `Text.RemoveIsSinglePass` | main.py:96 | `replace` makes one pass: removing "y =" from "yy = =" leaves "y =" |
| `Sampling.Linspace` | main.py:101 | `linspace(a, b, n)` has n points, the first `a` and the last `b` |
| `Sampling.LinspaceEvenlySpaced` | main.py:101 | consecutive linspace points are exactly (b - a)/(n - 1) apart |
| `Sampling.LinspaceIncreasing` | main.py:105 | over an increasing interval the linspace points are strictly increasing |
| `Sampling.CurveXs` | main.py:101 | the explicit samples are 400 points from -10 to 10 |
| `Sampling.ZeroIsNotSampled` | main.py:101 | x = 0 is not among the 400 explicit samples |
| `Sampling.MeshX` | main.py:124 | `X` of `meshgrid(xs, ys)` has one row per y, each a copy of `xs` |
| `Sampling.MeshY` | main.py:124 | `Y` of `meshgrid(xs, ys)` has one row per y, and row i holds `ys[i]` in each of its columns |
| `Sampling.SampleGridShape` | main.py:147-149 | the implicit and 3D grid is 400 x 400 over [-10, 10]², X varying along rows and Y down columns |
| `Sampling.SampleCurve` | main.py:101 | the comprehension succeeds exactly when every sample evaluates, and then gives one value per sample, in sample order; otherwise it fails with the exception of the first failing sample |
| `Routing.MenuFor` | main.py:206-213 | the first regex handler, in registration order, whose label matches the text; `handle_function_input` exactly when no label matches |
| `Routing.Route` | main.py:202-216 | /start and /help (case-insensitive) reach their handlers and other commands reach `handle_unknown`; a text reaches a menu handler only if it matches that handler's label, and reaches `handle_function_input` exactly when it matches no label; a message without text, or with an empty text, has no handler |
| `Routing.MatchesLabel` | main.py:206-212 | the filter `Regex('^label$')`: the text is the label, or the label followed by one final newline, which `$` also accepts |
| `Routing.MatchesLabelIsAnchored` | main.py:206-212 | a text matches exactly when it starts with the label and what follows is empty or a single "\n" |
| `Routing.LowerAscii` | main.py:202-203 | the command name as `CommandHandler` compares it: same length, each ASCII capital becomes its lower-case letter, every other character unchanged |
| `Routing.CommandCaseIgnored` | main.py:202-203 | every ASCII-case variant of "start" and "help" ("/START", "/Help", ...) reaches `start` and `help_command` |
| `Routing.MenuLabelRoutesToItsHandler` | main.py:206-212 | each menu label, with or without a final newline, reaches its own handler and no other |
| `Routing.KeyboardButtonRoutes` | main.py:10-25 | every 2D and 3D keyboard button reaches its menu handler; the main keyboard's "Помощь" button reaches `handle_function_input`, not /help |
| `Render.ExtractEquation` | main.py:96 | the explicit equation is stripped and no longer than the message |
| `Render.Legend` | main.py:105 | the curve's label `f"y = {equation}"` |
| `Render.ExtractEquationOfLegend` | main.py:96-105 | for a stripped equation `e` without "y =", the message "y = " + e yields `e`, and the legend repeats the message |
| `Render.UnspacedPrefixIsKept` | main.py:96 | only the spaced form "y =" is removed: "y=x**2" reaches sympify unchanged |
| `Render.SurfaceFor` | main.py:152-159 | a surface is selected exactly when the stripped text equals that surface's formula, and none is selected when the text equals no formula |
| `Render.SurfaceForText` | main.py:152-159 | each of the three formulas selects its own surface |
| `Render.SurfacePromptExampleIsUnknown` | main.py:80 | the 3D prompt's own example "z = sin(x) * cos(y)" is not an accepted formula |
| `Render.SurfaceMatchAfterStrip` | main.py:146-156 | blanks around an accepted formula do not prevent the match |
| `Render.FileNotFound` | main.py:117 | `str(e)` of the FileNotFoundError that `open(file_path, 'rb')` raises: "[Errno 2] No such file or directory: '<file>'" |
| `Render.Deliver` | main.py:112-117 | a saved file is sent as the photo; a missing file raises FileNotFoundError for that file; a drawing exception is raised unchanged |
| `Render.PlotExplicit` | main.py:95-117 | a sympify error is the result; a photo is sent exactly when sympify succeeds, all 400 samples evaluate and the file is saved; the photo is `explicit_plot.png`, titled "Явная функция", with legend "y = " + equation, axes X and Y, a grid, and one y per sample equal to the expression's value there; when every sample evaluates, a missing file raises FileNotFoundError for `explicit_plot.png` and a drawing exception is raised unchanged |
| `Render.FailingSampleAbortsExplicit` | main.py:101 | the first sample that fails to evaluate makes the whole explicit request fail with that exception |
| `Render.PlotImplicit` | main.py:120-142 | the implicit photo is sent exactly when the file is saved; it is always the zero contour of X²+Y²-1 on the sample grid, titled "Неявная функция: " + stripped text; a missing file raises FileNotFoundError |
| `Render.ImplicitFieldIsUnitCircle` | main.py:124-131 | the implicit contour is of `Z = X**2 + Y**2 - 1`, which is zero exactly on the unit circle |
| `Render.ImplicitIgnoresText` | main.py:127 | any two implicit texts draw the same contour |
| `Render.PlotSurface` | main.py:163-181 | a saved file gives the photo `3d_plot.png` with the selected surface, title "3D график: " + equation and axes X, Y, Z; a missing file gives "Не удалось сохранить изображение." with no exception; only a drawing exception raises |
| `Controller.Respond` | main.py:66-189 | the add menus store their mode, whatever the state was; /start, /help, the 2D, 3D, back and clear menus and unknown commands store nothing; idle text gets only the choose-a-graph prompt; explicit and implicit text always stores `None`; 3D text keeps 'add_3d' exactly when the formula is unknown, and answers "Неизвестная функция…" exactly then; any text gets the reply of `handle_function_input` for the current mode; a photo only comes from a pending mode that is then reset |
| `Controller.Outcome` | main.py:186-188 | a branch's reply is sent as it is; an exception `e` becomes the text "Ошибка: " + str(e) with no keyboard; a photo only comes from a branch that did not raise |
| `Controller.InputReply` | main.py:84-188 | an idle user gets the choose-a-graph prompt; 'add_explicit' text gets the outcome of the explicit branch and 'add_implicit' text that of the implicit branch; in 'add_3d' a known stripped formula gets the outcome of the 3D branch, and the reply is "Неизвестная функция…" exactly when the formula is unknown; a photo only comes from a pending mode |
| `Controller.SurfaceReplyIsNoHint` | main.py:152-181 | a known 3D formula never gets the unknown-formula hint, whether the drawing is sent, the file is missing, or drawing raises |
| `Controller.ResetsMode` | main.py:84-189 | whether `handle_function_input` sets the state to `None`: in every pending mode, except 'add_3d' with an unknown formula |
| `Controller.Run` | main.py:202-216 | handling one user's messages in turn gives one reply slot per message, and a user who starts idle is still idle after any run of messages none of which is an add-menu button |
| `Controller.PhotoFollowsAddMenu` | main.py:86-91 | starting idle, every photo is preceded by an add-menu selection |
| `Controller.StatelessMessagesKeepMode` | main.py:28-63 | any run of stateless messages (/start, /help, 2D and 3D menus, back, clear, unknown commands, messages without text) leaves the mode as it was |
| `Controller.UnknownFormulasKeepWaiting` | main.py:145-161 | in 'add_3d', texts that are not accepted formulas keep the mode and each gets "Неизвестная функция. Попробуйте другую." |
| `Controller.OneTextPerExplicitOrImplicitRequest` | main.py:184-189 | a pending explicit or implicit request is used by exactly one text; the next text gets the idle prompt |
| `Controller.Bot.constructor` | main.py:86 | no user has a state yet |
| `Controller.Bot.ModeOf` | main.py:86 | `context.user_data.get('state')`: a user without a stored state reads as `None` |
| `Controller.Bot.Start` | main.py:38-43 | /start answers with the greeting and the main keyboard |
| `Controller.Bot.HelpCommand` | main.py:28-35 | /help answers with the command list |
| `Controller.Bot.Handle2DMenu` | main.py:46-48 | answers with the 2D keyboard and changes no state |
| `Controller.Bot.Handle3DMenu` | main.py:51-53 | answers with the 3D keyboard and changes no state |
| `Controller.Bot.HandleClear` | main.py:56-58 | answers "График очищен…" but changes nothing, so a pending mode survives |
| `Controller.Bot.HandleBack` | main.py:61-63 | answers with the main keyboard and changes no state |
| `Controller.Bot.HandleUnknown` | main.py:192-194 | answers "Я не понимаю эту команду…" and changes no state |
| `Controller.Bot.AddExplicitFunction` | main.py:66-69 | prompts and stores 'add_explicit' for this user only |
| `Controller.Bot.AddImplicitFunction` | main.py:72-75 | prompts and stores 'add_implicit' for this user only |
| `Controller.Bot.Add3DFunction` | main.py:78-81 | prompts and stores 'add_3d' for this user only |
| `Controller.Bot.HandleFunctionInput` | main.py:84-189 | the reply is that of the pending mode's branch, with an exception turned into "Ошибка: " + str(e); the state is reset to `None` after both success and exception; the state map is untouched when idle or on an unknown 3D formula |
| `Controller.Bot.Answer` | main.py:28-63 | the answering-only handlers give their fixed replies with no `modifies` clause |
| `Controller.Bot.Receive` | main.py:202-216 | one message is handled as `Respond` says; only the sender's state can change |

## Left out

- Telegram transport: sending replies, uploading photos, keyboard markup objects (only which keyboard is attached, and the buttons' texts, are modelled), `ApplicationBuilder`, the token and `run_polling`. Replies are returned values.
- Async execution: `main()` builds the application without concurrent updates, so updates are handled one after another, each handler awaited before the next update is fetched. That is the order `Run` and `Bot.Receive` model, and it means each image file is written and read within one handler call. The event loop itself is not modelled.
- sympy: `sympify` and `float(expr.subs(x, xi))` are the `Libraries.sympify` parameter. It is a function of the equation text and gives an exception or a per-point evaluator that may raise. No grammar is modelled, because the code has none.
- Controller.Respond: `sympify` evaluates the user's text with `eval`, so it can run arbitrary code, have side effects, or never return. The model treats it as a total, effect-free function, so "explicit and implicit text always stores `None`" holds only for calls that return.
- Sampling.SampleCurve: `float(expr.subs(x, xi))` can return `inf` or `nan` without raising ("y = exp(x**3)" overflows at x = 10; "y = nan" is `nan` everywhere). Sample values are reals, so these non-finite floats, and how matplotlib draws them, are not represented.
- numpy numerics: sample coordinates are exact reals, not floats. The cos/sin/sqrt surfaces are named, not computed. `np.nan_to_num(Z, nan=np.nan)` at main.py:158 replaces NaN by NaN and ±inf by the largest finite floats. `sqrt` of a finite value is never infinite, so the call changes nothing there and is not modelled.
- matplotlib and the file system: rendering, `savefig`, `open` and `os.path.exists` are the `Libraries.drawing` outcome. The outcome is saved, file missing, or an exception from drawing, saving or sending.
- Routing.Route: the `@botname` suffix of a command, and edited messages, are not modelled. Command names are lower-cased on ASCII letters only, which is enough to compare with "start" and "help".
- Text.Replace: Python's behaviour for an empty pattern is not modelled. The only call uses the pattern "y =".
- A `state` value other than the four the handlers store cannot arise and is not modelled.
