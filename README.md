# mscript runtime kernel in Dafny

mscript is a small dynamically typed scripting language written in Rust. A
program is compiled to a flat list of stack-machine instructions and run
against a tree of variable scopes. This project models that runtime
kernel:

- **Scopes.** Each scope holds its own bindings, a link to its parent and
  a link to the global scope. A name can resolve in the scope itself, in
  the global scope, or by propagating to the parent.
- **Fields.** A name binds a variable field that may be readonly; a
  readonly field can be written once.
- **Stack machine.** It loads values, applies binary operators, stores
  into the local or global scope and looks up members. It ends with at
  most one return value.
- **Value layer.** Strings, `none`, errors, integers and functions. Each
  value has a type name, a "nice" and a "debug" string form bounded by a
  recursion depth of 8, and default errors for indexing, operators and
  calls.
- **Type-system draft.** Types with supertypes, the bootstrapping of
  `type` and `obj`, and a registry of builtin types.
- **Literal evaluation.** The compiler's evaluation of literal
  expressions (integers with `_` separators in decimal, hex and binary;
  booleans; lists; brackets) over a map keyed by parse-tree node.

The repository holds several drafts of the same interpreter side by side:

- the current stack machine and its cell-based scopes (`stackmachine.rs`);
- the first stack machine with its `StaticValue` values
  (`stackmachine_old.rs`);
- a field-based scope design (`scopes.rs`). `types_enum.rs` carries a
  close variant of it: `is_readonly` in place of `can_read`/`can_write`,
  `Rc<RefCell<..>>` handles instead of `Arc<RwLock<..>>`, and errors built
  as `MshValue::Str`. Its resolution, lookup and declaration rules are the
  same, so one model covers both;
- an enum-based value design (`types_enum.rs`);
- a trait-object value layer (`types.rs` and `types/`).

Each draft is modelled on its own terms.

Modelling conventions:

- **Scope tree.** It is an arena: a sequence of scope records, each linking
  to a parent and to a global scope at a smaller index. Shared
  `Rc<RefCell<..>>` / `Arc<RwLock<..>>` scopes thus become indices. Mutating
  operations are methods of a class holding that sequence
  (`FieldScope.FieldScopes`, `CellScope.CellScopes`), each stated against a
  pure function on the sequence.
- **`StackMachine.Exec`.** It is the source's `for` loop as a `while` loop,
  proved equal to the recursive specification `StackMachine.Run`.
- **Values.** They are datatypes. Where the source calls into another
  value, the model passes that value's behaviour in an `Ops` record.
- **Formatting.** `{:p}` applied to `&self` prints the address of the
  `self` reference, not of the object. Whatever it prints is a parameter
  `addr`.
- **Integers.** `isize`/`i64` are 64-bit: `Decimal.I64`.
- **`todo!()`.** A `todo!()` in the source gives the outcome `Unspecified`.
- **Panics.** An `unwrap` that can panic gives `Unspecified`, `None` or
  `false`. The state is then left unchanged. The exception is
  `Objects.IndexOf`, `BinOp`, `UnOp` and `DefaultCall`. They require the
  type text to build, which is the `unwrap` they perform. Their caller
  `Machine.Binop` gives `Unspecified` when it does not build.

Three places where the code does not do what its messages suggest; the model follows the code:

- In `types_enum.rs` a call on a primitive value reaches `objtype()`, which
  is `todo!()` (lines 57-66). So `EnumValues.Call` gives `Unspecified`
  rather than a "cannot call" error.
- Integer and error values print their debug form inside quotes.
  `str_debug` returns a string object, and the string's own
  `to_string_debug` quotes it (`src/interpreter/types/string.rs:38-40`).
- `to_ext_string` is documented to fail after `MAX_EXTSTR_DEPTH` levels
  (`src/interpreter/types/object.rs:34-35`). Its guard's body is commented
  out (lines 37-39), so the depth is never checked:
  `MObjects.DepthIgnored` and `NoDepthError`.

Several source items do not compile as written and are modelled by their
evident intent:

- `to_ext_string` in `object.rs` calls a missing `to_string_debug`. It is
  modelled as recursion into itself.
- `ObjField::new` in `mtype.rs` has no return value, and its `get`/`set`
  call themselves.
- `MTypeImpl::new` does not exist. It is modelled as the `MType`
  constructor.
- `Builtins::singleton` is `Self;`. It is modelled as an empty registry.
- `Builtins::create_type` (`builtin.rs:18-21`) returns `insert`'s `Option`
  where `()` is declared, and is called through `&mut self` on the
  immutable lazy static `BUILTINS`. It is modelled as a method that
  updates the registry.
- `Builtins::get_type` (`builtin.rs:22-24`) returns the optional map lookup
  where a bare reference is declared. It is modelled as returning an
  `Option`.
- `mtype.rs` implements `Into<MTypeRef>` and `Into<MTypeImplRef>` for
  `MTypeImpl` twice (lines 68-77 and 107-116). It also uses `impl Fn` as
  field types of `ObjField` (lines 21-22). The model keeps one conversion
  (none is needed on values) and stores the accessors as closures.
- `function.rs` is commented out of the module tree (`types.rs:2`), and
  its `dot` signature (`function.rs:23`) does not match the trait's
  (`types.rs:99`). The call is modelled as written; `dot` is `todo!()`
  and unspecified.
- `stackmachine.rs:287` pushes the result of `dot` onto the value stack.
  That result is an optional annotated field in the trait draft, not a
  value. Member access is modelled as giving a value or an error.

## Model

| member | source | states |
|---|---|---|
| ScopeTree.Root | src/interpreter/scopes.rs:119-127 | following global and parent links from a scope ends at a scope at or below it that has neither a parent nor a global link |
| ScopeTree.FindGlobalScope | src/interpreter/scopes.rs:119-127 | the global link when present, else the scope itself; that this is the walk's root is `ScopeTree.FindGlobalIsRoot` |
| ScopeTree.FindGlobalIsRoot | src/interpreter/scopes.rs:119-127 | `find_global_scope` returns that root: the global link when present, else the scope itself |
| ScopeTree.GlobalBelow | src/interpreter/stackmachine.rs:48-56 | the global scope found lies at or below the scope, and a global link always points to an earlier scope |
| ScopeTree.NewGlobal | src/interpreter/scopes.rs:130-137 | a new global scope has no parent, no global link and no bindings, and no existing scope changes |
| ScopeTree.NewLocal | src/interpreter/scopes.rs:145-154 | a new local scope has the given parent and empty bindings; its global link is the parent's global scope, so its root is the parent's root; no existing scope changes |
| ScopeTree.SameShapeRoot | src/interpreter/stackmachine.rs:191-215 | editing bindings never changes any scope's global scope |
| ScopeTree.RootOfPrefix | src/interpreter/scopes.rs:145-154 | adding scopes never changes the global scope of an existing one |
| Fields.Write | src/interpreter/scopes.rs:80-89 | a write fails with "field is readonly" exactly when the field is readonly and already holds a value, and then leaves the value unchanged; otherwise it returns the previous value and stores the new one |
| Fields.FrozenStaysFrozen | src/interpreter/scopes.rs:80-89 | every write to a readonly field that holds a value fails and the value stays |
| Fields.ReadonlyWriteOnce | src/interpreter/scopes.rs:80-89 | the first write to an empty readonly field succeeds and returns no previous value; every later write fails; the field keeps the first value |
| Fields.WritableLastWins | src/interpreter/scopes.rs:80-89 | on a writable field each write returns the value before it and the last write wins |
| Fields.VariableField.constructor | src/interpreter/scopes.rs:48-60 | a new field holds the given name, value, readonly flag and docstring |
| Fields.VariableField.GetName | src/interpreter/scopes.rs:63-65 | returns the field's name |
| Fields.VariableField.GetDocstring | src/interpreter/scopes.rs:66-68 | returns the field's docstring |
| Fields.VariableField.CanRead | src/interpreter/scopes.rs:70-72 | every field can be read |
| Fields.VariableField.CanWrite | src/interpreter/scopes.rs:73-75 | a field can be written exactly when it is not readonly |
| Fields.VariableField.IsReadonly | src/interpreter/types_enum.rs:186-188 | reports the readonly flag |
| Fields.VariableField.GetValue | src/interpreter/scopes.rs:77-79 | reading always succeeds with the stored value or its absence |
| Fields.VariableField.SetValue | src/interpreter/scopes.rs:80-89 | the result and the new value are those of `Write`; name, flag and docstring do not change (the same in `types_enum.rs:193-199`) |
| Fields.VariableField.SetDocstring | src/interpreter/scopes.rs:92-94 | replaces the docstring only |
| Fields.UnassignedReadonlyScenario | src/interpreter/scopes.rs:73-89 | an empty readonly field reports that it cannot be written, yet its first write succeeds and its second fails |
| FieldScope.GetBehavior | src/interpreter/scopes.rs:191-200 | resolution never yields a stored field; it is local exactly when the name is bound here as a field or a local marker, propagating exactly when the name is unbound or marked to propagate, and global otherwise |
| FieldScope.Get | src/interpreter/scopes.rs:164-180 | the lookup as the source walks it; its meaning is stated by `FieldScope.GetFollowsBehavior`, `GetFindsAncestorField`, `DeclaredGood` and `DeclareOtherNames` |
| FieldScope.GetFollowsBehavior | src/interpreter/scopes.rs:164-180 | lookup returns the local field, asks the global scope (nothing in a scope without parent), or asks the parent, as the resolution says |
| FieldScope.GetFindsAncestorField | src/interpreter/scopes.rs:164-180 | a field found by lookup is stored under that name in the scope itself or one of its ancestors |
| FieldScope.RootIsAncestor | src/interpreter/scopes.rs:119-127 | the global scope is an ancestor of every scope |
| FieldScope.Declared | src/interpreter/scopes.rs:220-234 | declaring as propagating removes the name; otherwise the name maps to the given binding; every other name is untouched |
| FieldScope.DeclaredGood | src/interpreter/scopes.rs:176-178 | declarations never leave a bare local marker, so the lookup branch that panics on one cannot be reached |
| FieldScope.DeclareOtherNames | src/interpreter/scopes.rs:220-234 | declaring a name changes the lookup of no other name in any scope |
| FieldScope.FieldScopes.NewGlobal | src/interpreter/scopes.rs:130-137 | appends a new global scope as `ScopeTree.NewGlobal` states |
| FieldScope.FieldScopes.NewLocal | src/interpreter/scopes.rs:145-154 | appends a new local scope as `ScopeTree.NewLocal` states |
| FieldScope.FieldScopes.Declare | src/interpreter/scopes.rs:220-234 | declaring as local stores a fresh writable empty field named after the variable; the other variants store the binding or remove the name (the same in `types_enum.rs:319-333`) |
| FieldScope.FieldScopes.GetOrDeclare | src/interpreter/scopes.rs:209-214 | returns the existing field; in a strict scope a missing name fails with no change; otherwise a fresh empty field is declared locally and returned (the same in `types_enum.rs:308-313`) |
| CellScope.GetBehavior | src/interpreter/stackmachine.rs:117-126 | resolution is local exactly when the name is declared here (with or without a value), global exactly when marked global, and propagating otherwise |
| CellScope.Get | src/interpreter/stackmachine.rs:92-115 | the lookup as the source walks it; `CellScope.QueriesFollowHolder` states that it gives the holder's value, or `none` |
| CellScope.IsDeclared | src/interpreter/stackmachine.rs:132-147 | the query as the source walks it; `CellScope.QueriesFollowHolder` states that it holds exactly when a holder exists |
| CellScope.HasValue | src/interpreter/stackmachine.rs:149-166 | the query as the source walks it; `CellScope.QueriesFollowHolder` states that it holds exactly when the holder stores a value |
| CellScope.GetTypeHint | src/interpreter/stackmachine.rs:168-189 | the hint lookup as the source walks it; its meaning is stated by `CellScope.GlobalHintFallback`, `HolderAfterRebind` and `AssignThenGet` |
| CellScope.Rebind | src/interpreter/stackmachine.rs:193-205 | rebinding a name keeps the shape of the scope tree; `CellScope.HolderAfterRebind` states that the holder and hint stay |
| CellScope.Assign | src/interpreter/stackmachine.rs:191-215 | assignment keeps the shape of the scope tree; its meaning is stated by `CellScope.AssignSpec`, `AssignThenGet` and `AssignOtherNames` |
| CellScope.Holder | src/interpreter/stackmachine.rs:132-144 | the scope that answers for a name lies at or below the asking scope and declares the name |
| CellScope.QueriesFollowHolder | src/interpreter/stackmachine.rs:92-162 | a name is declared exactly when a holder exists; it has a value exactly when the holder stores one; lookup returns that value, else `none`; a name declared locally without a value is declared but has no value (the same in `stackmachine_old.rs:265-335`) |
| CellScope.GlobalHintFallback | src/interpreter/stackmachine.rs:168-182 | a global marker's own type hint wins; otherwise the global scope's hint is used |
| CellScope.AssignSpec | src/interpreter/stackmachine.rs:191-215 | assignment rebinds the name in the scope that holds it; an undeclared name is declared locally when the scope is not strict; otherwise assignment is refused with no change; it fails exactly in that last case (the same in `stackmachine_old.rs:364-388`) |
| CellScope.HolderAfterRebind | src/interpreter/stackmachine.rs:193-205 | rebinding keeps the holder and the type hint |
| CellScope.AssignThenGet | src/interpreter/stackmachine.rs:191-215 | after a successful assignment the name is declared, has the value assigned and keeps its earlier type hint (none when newly declared) |
| CellScope.AssignOtherNames | src/interpreter/stackmachine.rs:191-215 | assigning a name changes no query on any other name in any scope |
| CellScope.DeclareEntry | src/interpreter/stackmachine.rs:220-230 | declaring as propagating removes the name, otherwise stores the binding with its hint; other names are untouched (the same in `stackmachine_old.rs:393-398`) |
| CellScope.CreateScopesScenario | src/interpreter/stackmachine.rs:313-333 | a name declared in a middle scope is visible from its child and not from the global scope |
| CellScope.CellScopes.NewGlobal | src/interpreter/stackmachine.rs:59-66 | appends a new global scope as `ScopeTree.NewGlobal` states |
| CellScope.CellScopes.NewLocal | src/interpreter/stackmachine.rs:73-82 | appends a new local scope as `ScopeTree.NewLocal` states |
| CellScope.CellScopes.Declare | src/interpreter/stackmachine.rs:220-230 | changes exactly the bindings of the one scope, as `DeclareEntry` states |
| CellScope.CellScopes.Set | src/interpreter/stackmachine.rs:191-215 | the success flag and the new scopes are those of the specification `Assign` |
| StackMachine.Step | src/interpreter/stackmachine.rs:243-290 | an instruction that lets execution continue only edits bindings; a stopping instruction never returns a value |
| StackMachine.Run | src/interpreter/stackmachine.rs:236-300 | running instructions never changes the scope tree's structure |
| StackMachine.Finish | src/interpreter/stackmachine.rs:293-299 | an empty stack returns `none`, a single value is returned, and more values raise "too many return values" |
| StackMachine.Exec | src/interpreter/stackmachine.rs:236-300 | the instruction loop leaves the scopes and gives the outcome that `Run` specifies |
| StackMachine.BinOperatorPopOrder | src/interpreter/stackmachine.rs:245-254 | a binary operator applies to the second from top and the top, in that order, and pushes the result or stops with the operator's error |
| StackMachine.BinOperatorUnderflow | src/interpreter/stackmachine.rs:245-252 | with fewer than two values a binary operator raises "not enough arguments for binary operator" |
| StackMachine.StoreIgnoresRejection | src/interpreter/stackmachine.rs:260-269 | a store pops its value and assigns it; a refused assignment is ignored and execution goes on |
| StackMachine.StoreOnEmptyStack | src/interpreter/stackmachine.rs:260-287 | on an empty stack a store raises "no value to assign" and a member access raises "no value to index into" |
| StackMachine.LoadsReachFinish | src/interpreter/stackmachine.rs:244-258 | a run of loads leaves the scopes alone and ends as if the loaded values had been pushed in order |
| StackMachine.TerminationRule | src/interpreter/stackmachine.rs:293-299 | an empty stack gives `none`, one value is returned, more values raise "too many return values" |
| StackMachine.InterpreterScenario | src/interpreter/stackmachine.rs:336-351 | storing into a global and loading it from a local scope returns the value; the binding lives in the global scope only |
| StaticValues.ObjectDot | src/interpreter/stackmachine_old.rs:47-52 | objects expose no members: every member access fails naming the identifier |
| StaticValues.Dot | src/interpreter/stackmachine_old.rs:156-161 | no value exposes members: every member access fails naming the identifier |
| StaticValues.ObjType | src/interpreter/stackmachine_old.rs:139-149 | integers report "int", strings "str", booleans "bool", functions "func", `none` "none", and exactly the objects report "obj" |
| StaticValues.TypeName | src/interpreter/stackmachine_old.rs:139-149 | the type name as text; `StaticValues.ObjType` states it per variant |
| StaticValues.ToString | src/interpreter/stackmachine_old.rs:116-133 | the corrected rendering of a value; stated by `StaticValues.ScalarRenderings`, `IntRenderingRoundTrip`, `ObjTypeRenders`, `ListRendersAsJoin` and `ListFailsAtFirstFailure` |
| StaticValues.ObjectToString | src/interpreter/stackmachine_old.rs:24-43 | the corrected rendering of an object; stated by `StaticValues.ListRendersAsJoin`, `ListFailsAtFirstFailure` and `DictNeverRenders` |
| StaticValues.ToStringAsWritten | src/interpreter/stackmachine_old.rs:116-133 | the rendering as written, descending into objects as written; `StaticValues.ListToStringRepeatsFirst` shows it |
| StaticValues.ObjectToStringAsWritten | src/interpreter/stackmachine_old.rs:24-43 | the object rendering as written, with the first item repeated; `StaticValues.ListToStringRepeatsFirst` shows it |
| StaticValues.ObjectCall | src/interpreter/stackmachine_old.rs:86-100 | a dictionary with `$call` delegates, anything else gives no answer; `StaticValues.CallSucceedsIffCallable` states when calls succeed |
| StaticValues.Call | src/interpreter/stackmachine_old.rs:188-197 | functions return `none`, objects delegate, the rest are "not callable"; `StaticValues.CallSucceedsIffCallable` states exactly which calls succeed |
| StaticValues.ListToStringRepeatsFirst | src/interpreter/stackmachine_old.rs:26-33 | as written, the list `[1]` renders as "[1, 1]" and `[[1]]` as "[[1, 1], [1, 1]]"; the corrected rendering gives "[1]" |
| StaticValues.ListRendersAsJoin | src/interpreter/stackmachine_old.rs:26-33 | (corrected rendering) a list whose items all render is shown as their strings joined by ", " inside brackets |
| StaticValues.ListFailsAtFirstFailure | src/interpreter/stackmachine_old.rs:26-33 | (corrected rendering) a list fails with the error of its first item that fails |
| StaticValues.DictNeverRenders | src/interpreter/stackmachine_old.rs:34-42 | a dictionary's rendering always fails because its `$tostr` member does not exist |
| StaticValues.IntRenderingRoundTrip | src/interpreter/stackmachine_old.rs:118 | an integer renders in decimal and reads back as the same integer |
| StaticValues.ScalarRenderings | src/interpreter/stackmachine_old.rs:116-133 | strings render as themselves, booleans as "true"/"false", functions as "func NAME() -> none", none as "none" |
| StaticValues.ObjTypeRenders | src/interpreter/stackmachine_old.rs:139-149 | a type name always renders as itself |
| StaticValues.ObjectIndex | src/interpreter/stackmachine_old.rs:53-77 | a list indexed by an in-range integer gives that item; other integers are out of bounds; other index types are invalid; a dictionary calls its `$index` member or reports that `obj` cannot be indexed |
| StaticValues.Index | src/interpreter/stackmachine_old.rs:166-168 | indexing a value always succeeds with `none` |
| StaticValues.Operator | src/interpreter/stackmachine_old.rs:175-182 | every operator fails with a message naming the operator and both type names |
| StaticValues.CallSucceedsIffCallable | src/interpreter/stackmachine_old.rs:188-197 | a call succeeds exactly for functions and for dictionaries whose `$call` succeeds; a function call returns `none`; other values fail as "not callable" |
| OldMachine.OldBinop | src/interpreter/stackmachine_old.rs:175-182 | every binary operation raises the operator error |
| OldMachine.OldDot | src/interpreter/stackmachine_old.rs:156-161 | every member access raises the missing-identifier error |
| OldMachine.LocalFor | src/interpreter/stackmachine_old.rs:404-412 | a given local scope is used as is; otherwise a fresh non-strict child of the global scope is created |
| OldMachine.ExecOldSpec | src/interpreter/stackmachine_old.rs:404-472 | the first draft's run in the scope `LocalFor` chooses; `OldMachine.ExecOld`, `FreshLocalScope` and `BinOperatorAlwaysRaises` state its behaviour |
| OldMachine.ExecOld | src/interpreter/stackmachine_old.rs:404-472 | the first draft's loop returns the local scope, new scopes and outcome that `ExecOldSpec` specifies |
| OldMachine.BinOperatorAlwaysRaises | src/interpreter/stackmachine_old.rs:175-182 | in the first draft a binary operator always stops with "operator OP not supported between T1,T2" |
| OldMachine.FreshLocalScope | src/interpreter/stackmachine_old.rs:404-412 | without a local scope, execution runs in a new child of the global scope |
| OldMachine.InterpreterTest | src/interpreter/stackmachine_old.rs:506-520 | storing 42 globally and loading it locally returns 42 and leaves it visible |
| Objects.StrFrom | src/interpreter/types/string.rs:72-86 | converting text gives a string object with that content |
| Objects.IntNew | src/interpreter/types/int.rs:14-16 | a new integer holds its value |
| Objects.ErrorNew | src/interpreter/types/error.rs:14-18 | a new error holds its message |
| Objects.ObjType | src/interpreter/types/string.rs:23-25 | built-in values report the type names str, none, Error, int and func |
| Objects.TypeBelow | src/interpreter/types.rs:74-80 | in the model a value's type is a strictly smaller value, so the model's default formatting terminates (the source does not guarantee this; see Left out) |
| Objects.StrNice | src/interpreter/types.rs:64-66 | a string's nice form is itself, `none`'s is "none" and an error's "Error: MSG"; a custom override is used as given; integers, functions and values without a nice override fall back to the debug form; any other successful nice form is a strictly smaller value |
| Objects.StrDebug | src/interpreter/types.rs:74-80 | a string's debug form is itself in quotes and an integer's its decimal; a custom debug override is used as given; `none`, errors, functions and values without a debug override get the default "object ADDR of type `T`" form; any successful debug form of a non-string is a strictly smaller value |
| Objects.DefaultStrDebug | src/interpreter/types.rs:74-80 | the default debug form is "object ADDR of type `T`", with T the type's nice text; it fails exactly when that text fails, with the same error |
| Objects.NiceDepthBound | src/interpreter/types.rs:82-87 | nice conversion gives the unbounded chain's result when the chain fits within depth 8 (strings at any depth), and the maximum-recursion-depth error otherwise |
| Objects.DebugDepthBound | src/interpreter/types.rs:89-94 | debug conversion gives the unbounded chain's result when the chain fits within depth 8, and the depth error otherwise |
| Objects.ToStringNice | src/interpreter/types.rs:82-87 | the depth-guarded nice conversion; `Objects.NiceDepthBound` states its result against the unbounded `NiceChain` |
| Objects.ToStringDebug | src/interpreter/types.rs:89-94 | the depth-guarded debug conversion; `Objects.DebugDepthBound` states its result against the unbounded `DebugChain` |
| Objects.StringsEndRecursion | src/interpreter/types/string.rs:27-40 | a string converts to itself (nice) or to itself in quotes (debug) at any depth |
| Objects.BuiltinStringForms | src/interpreter/types/int.rs:23-25 | nice forms: an integer's decimal, "none", "Error: MSG" and, for functions, the default form; debug forms: the decimal in quotes, and for `none`, errors and functions the default "object ADDR of type `T`" text in quotes |
| Objects.ErrorNice | src/interpreter/types/error.rs:37-43 | an error's nice form is "Error: " followed by its message |
| Objects.DefaultForm | src/interpreter/types.rs:74-80 | `none`, errors and functions use the default debug form naming their address and type |
| Objects.BuiltinTypeText | src/interpreter/types.rs:107 | a built-in value's type text converts without failing to its type name |
| Objects.IndexOf | src/interpreter/types.rs:104-109 | indexing fails with "cannot access index of `T`" for every value except strings, whose indexing is unfinished |
| Objects.BinOp | src/interpreter/types.rs:114-123 | a binary operation fails with "cannot operate on `T`" |
| Objects.UnOp | src/interpreter/types.rs:131-142 | a unary operation fails with "cannot operate on `T`" |
| Objects.DefaultCall | src/interpreter/types.rs:149-159 | a call fails with "cannot call `T`" |
| Objects.DotOf | src/interpreter/types/none.rs:37-39 | member access on `none` fails with "cannot access members of `none`"; for other values it is unfinished |
| Objects.Display | src/interpreter/types/none.rs:23-27 | `none` displays as "none" and an error as its message |
| Objects.ErrorDisplayAndNice | src/interpreter/types/error.rs:26-43 | an error's nice form is "Error: " followed by what it displays |
| Machine.Binop | src/interpreter/stackmachine.rs:254 | a binary operator in the current machine never returns a value; it raises the value's operator error |
| Machine.Exec | src/interpreter/stackmachine.rs:236-300 | the current machine runs against the global scope it finds and gives what `Run` specifies |
| Machine.CallSpec | src/interpreter/types/function.rs:27-34 | calling a function adds exactly one scope and keeps the tree well formed |
| Machine.CallFunction | src/interpreter/types/function.rs:27-34 | calling a function changes the scopes and returns what `CallSpec` specifies |
| Machine.CallScope | src/interpreter/types/function.rs:33 | a call runs in a new non-strict child of the calling scope; existing scopes keep their structure |
| Machine.CallAssignsCallerVariable | src/interpreter/types/function.rs:33 | a function body storing into a name the caller declares updates the caller's variable and returns `none` |
| Machine.BinOperatorCannotOperate | src/interpreter/stackmachine.rs:245-254 | a binary operator on a built-in left operand raises "cannot operate on `T`" |
| Machine.DotOnNone | src/interpreter/stackmachine.rs:280-288 | member access on `none` raises the `none` members error |
| Machine.InterpreterTest | src/interpreter/stackmachine.rs:336-351 | storing 42 globally and loading it from a local scope returns 42 |
| EnumValues.BoolText | src/interpreter/types_enum.rs:74-83 | booleans print as "true" or "false" |
| EnumValues.StrDebug | src/interpreter/types_enum.rs:74-83 | primitives print as "none", decimal, "true"/"false" or the string in quotes; objects give their own answer |
| EnumValues.StrNice | src/interpreter/types_enum.rs:67-73 | strings print unquoted, objects give their own answer, the rest use the debug form |
| EnumValues.UnwrapStr | src/interpreter/types_enum.rs:119-124 | unwrapping gives the text exactly for strings |
| EnumValues.Call | src/interpreter/types_enum.rs:105-115 | objects return or raise their call answer; for primitives the outcome is unspecified |
| EnumValues.PrimitiveTexts | src/interpreter/types_enum.rs:67-83 | primitives always print to strings; nice and debug agree except that strings are quoted in debug |
| EnumValues.PrimitiveTextsReadBack | src/interpreter/types_enum.rs:67-83 | an integer's printed form reads back as the integer; booleans, strings and none read back as their value |
| MObjects.StrDebug | src/interpreter/types/object.rs:26-32 | the default debug form is "object ADDR of type `NAME`"; an override replaces it |
| MObjects.StrNice | src/interpreter/types/object.rs:19 | the nice form is the override or else the debug form |
| MObjects.ToExtString | src/interpreter/types/object.rs:36-45 | the conversion as written, with the depth guard empty; stated by `MObjects.DepthIgnored`, `ExtStringStep`, `DefaultText`, `NestedConverts` and `NoDepthError` |
| MObjects.DepthIgnored | src/interpreter/types/object.rs:36-45 | the result of extended string conversion does not depend on the starting depth |
| MObjects.ExtStringStep | src/interpreter/types/object.rs:40-44 | conversion takes the nice or debug form and converts it one level deeper, passing errors on |
| MObjects.DefaultText | src/interpreter/types/object.rs:26-45 | an object without overrides converts to its default form, quoted in debug |
| MObjects.NestedConverts | src/interpreter/types/object.rs:36-45 | a chain of nice overrides ending in a string converts to that string at any length |
| MObjects.NoDepthError | src/interpreter/types/object.rs:9 | ten levels, more than the depth limit of 8, still convert |
| TypeSystem.NewObjField | src/interpreter/types/mtype.rs:24-38 | a field holds its name, docstring, getter and setter |
| TypeSystem.CanRead | src/interpreter/types/mtype.rs:46-48 | a field can be read exactly when it has a getter |
| TypeSystem.CanWrite | src/interpreter/types/mtype.rs:49-51 | a field can be written exactly when it has a setter |
| TypeSystem.FieldAccessors | src/interpreter/types/mtype.rs:40-51 | the accessors report what the field was built with |
| TypeSystem.MType.constructor | src/interpreter/types/mtype.rs:84-94 | a new type has the given name, type and supertypes and empty dictionaries |
| TypeSystem.MType.Name | src/interpreter/types/mtype.rs:99-101 | returns the type's name |
| TypeSystem.MType.Supertypes | src/interpreter/types/mtype.rs:103-105 | returns the type's supertypes |
| TypeSystem.CreateObjectTypeFor | src/interpreter/types/mtype.rs:142-152 | creates `obj` as an instance of the given `type`, with no supertypes |
| TypeSystem.InitBaseTypes | src/interpreter/types/mtype.rs:124-141 | builds `type` and `obj` together as `BaseTypes` describes |
| TypeSystem.TypeOfTypeIsType | src/interpreter/types/mtype.rs:124-141 | `type` is its own type; `obj`'s type is `type` itself; `type`'s only supertype is `obj`, which has none |
| TypeSystem.CreateObjectType | src/interpreter/types/object.rs:89-92 | creates `obj` with no type and no supertypes |
| TypeSystem.Register | src/interpreter/types/builtin.rs:18-21 | registering maps the name to the type, adds only that key and keeps every other entry |
| TypeSystem.Find | src/interpreter/types/builtin.rs:22-24 | a lookup finds a type exactly when the name is registered |
| TypeSystem.FindAfterRegister | src/interpreter/types/builtin.rs:18-24 | a registered type is found under its name; other names are unaffected |
| TypeSystem.Builtins.constructor | src/interpreter/types/builtin.rs:15-17 | the registry starts empty |
| TypeSystem.Builtins.CreateType | src/interpreter/types/builtin.rs:18-21 | registers the type under its name |
| TypeSystem.Builtins.GetType | src/interpreter/types/builtin.rs:22-24 | looks the name up in the registry |
| TypeSystem.CreateTypeType | src/interpreter/types/builtin.rs:27-30 | creates `type` with the registered `obj` as its only supertype; fails exactly when `obj` is missing |
| TypeSystem.InitTypeSystem | src/interpreter/types/builtin.rs:32-36 | registers `obj`, `type` (with supertype `obj`) and the `none` type, in that order |
| Compiler.KeyForCtx | src/parser/compiler.rs:44-47 | a node's key is its rule, start and stop |
| Compiler.SharedSlot | src/parser/compiler.rs:44-47 | two nodes with the same rule and span share one slot |
| Compiler.Stored | src/parser/compiler.rs:56-58 | a lookup finds a value exactly when the node's key is present |
| Compiler.SetThenGet | src/parser/compiler.rs:56-86 | a value set for a node is found for it; other keys are unaffected |
| Compiler.RemoveThenGet | src/parser/compiler.rs:72-74 | after removal the node has no value; other keys are unaffected |
| Compiler.TreeAttributeMap.constructor | src/parser/compiler.rs:37-39 | a new map is empty |
| Compiler.TreeAttributeMap.Get | src/parser/compiler.rs:56-58 | returns what is stored for the node |
| Compiler.TreeAttributeMap.Set | src/parser/compiler.rs:81-86 | stores the value under the node's key |
| Compiler.TreeAttributeMap.Remove | src/parser/compiler.rs:72-74 | returns the stored value and removes the key |
| Compiler.RemoveUnderscores | src/parser/compiler.rs:236 | the cleaned text has no underscores and is no longer than the input |
| Compiler.RemoveUnderscoresAppend | src/parser/compiler.rs:236 | removing underscores distributes over concatenation |
| Compiler.RemoveUnderscoresKeeps | src/parser/compiler.rs:236 | text without underscores is unchanged |
| Compiler.RemoveUnderscoresDropsOnly | src/parser/compiler.rs:236 | exactly the underscores are dropped: every other character keeps its count, and the length falls by the number of underscores |
| Compiler.ParseIntLiteral | src/parser/compiler.rs:235-245 | decimal, hex and binary literals parse after removing underscores, hex and binary after dropping their two-character prefix; other tokens give no value |
| Compiler.DecimalLiteralRoundTrip | src/parser/compiler.rs:235-245 | every 64-bit integer's decimal text parses back to it |
| Compiler.UnderscoredDecimal | src/parser/compiler.rs:235-245 | "1_000" parses to 1000 |
| Compiler.HexLiteral | src/parser/compiler.rs:235-245 | "0x2A" parses to 42 |
| Compiler.BinaryLiteral | src/parser/compiler.rs:235-245 | "0b1_01" parses to 5 |
| Compiler.RejectedLiterals | src/parser/compiler.rs:235-245 | a bare prefix, a too short binary literal and a non-integer token give no value |
| Compiler.BoolLiteral | src/parser/compiler.rs:249-251 | a boolean literal is true exactly when its text is "true" |
| Compiler.ExprChildren | src/parser/compiler.rs:199-205 | the expression children are exactly the children that are expressions; with `Compiler.FilterAppend`, `FilterOne` and `FilterMultiplicity`, they keep their order and their number |
| Compiler.FilterAppend | src/parser/compiler.rs:199-205 | keeping the expression children preserves order: the result for a concatenation is the results for its parts, concatenated |
| Compiler.FilterOne | src/parser/compiler.rs:199-205 | a single child is kept exactly when it is an expression |
| Compiler.FilterKeepsExpressions | src/parser/compiler.rs:199-205 | children that are all expressions are kept unchanged |
| Compiler.FilterMultiplicity | src/parser/compiler.rs:199-205 | every expression child is kept as often as it occurs, and no other child is kept |
| Compiler.Values | src/parser/compiler.rs:199-205 | the children's values exist exactly when every child has one, and are then those values in order |
| Compiler.InterpretingVisitor.VisitNumInt | src/parser/compiler.rs:235-245 | stores the parsed integer for the node; a literal that does not parse changes nothing |
| Compiler.InterpretingVisitor.VisitBool | src/parser/compiler.rs:249-251 | stores the boolean for the node |
| Compiler.InterpretingVisitor.VisitListInit | src/parser/compiler.rs:199-205 | stores the list of the expression children's values for the node, and fails with no change when one is missing |
| Compiler.InterpretingVisitor.VisitListEntry | src/parser/compiler.rs:207-214 | appends the entry's value to the parent's list, and fails with no change when either is missing or the parent is not a list |
| Compiler.InterpretingVisitor.VisitBrackets | src/parser/compiler.rs:220-224 | gives the node the value of its first expression child |
| Compiler.EntriesBuildList | src/parser/compiler.rs:207-214 | appending entries one by one to an empty list gives the list of those entries |
| Compiler.AppendAll | src/parser/compiler.rs:207-214 | appending entries changes only the parent's list |
| Decimal.NatToString | src/interpreter/stackmachine_old.rs:118 | decimal text of a natural number is non-empty digits |
| Decimal.NatToStringValue | src/interpreter/stackmachine_old.rs:118 | the digits of a natural number's decimal text evaluate back to it |
| Decimal.IntToString | src/interpreter/types/int.rs:23-25 | the text is non-empty and starts with a minus sign exactly for negative numbers; `Decimal.DecimalRoundTrip` states that it parses back |
| Decimal.FromStrRadix | src/parser/compiler.rs:238-243 | a parse succeeds only on non-empty text and gives a non-negative value unless the text starts with "-" |
| Decimal.DecimalRoundTrip | src/interpreter/types/int.rs:23-25 | a 64-bit integer's decimal text parses back to it |

## Left out

- Floating-point values: `StaticValue::Float`, `visit_numFloat`, `parse_float_literal`. Dafny has no IEEE floats.
- Locking and sharing: `Arc<RwLock<..>>` and `Rc<RefCell<..>>` become arena indices or plain values. Aliasing through two handles to the same scope or object is not modelled beyond the arena.
- `MshReference` delegation (`src/interpreter/types.rs:166-196`) is the identity here, because values are used directly.
- `Debug`/`Display` impls and pretty printing, except `none` and `Error` display, which the nice forms use.
- The lexer and parser (`lexer_parce.rs`, the ANTLR-generated grammar, `build.rs`).
- `visit_file`, `visit_execLine`, `visit_dictInit`, `visit_number` and the visitor's dispatch. They read or print whole programs, or are unfinished.
- `Compiler.InterpretingVisitor.VisitBrackets`: `visit_brackets` first visits its child with `child.accept(self)` (`compiler.rs:222`). The model leaves out that recursive visit and reads the child's value as already stored.
- The expression-map `get_mut`, `get_generic` and `remove_generic` variants. They are other ways to reach the same slot as `Get` and `Remove`.
- `Statement::Index` and `Statement::Call` in the current machine are `todo!()`; they end the run as `Unspecified`.
- `StackMachine.Exec`, `Machine.Exec`: a panicking `unwrap` in the source (a poisoned lock, an operator on a value whose type text fails) gives `Unspecified` rather than an abort.
- `Objects.TypeBelow`: the model cannot express a value that is its own type, or an endless chain of types. In the source the default `str_debug` (`types.rs:78`) and error's `str_nice` (`error.rs:40`) render the type with `to_string_nice(0)`, which restarts the depth count. `type` is its own type (`types.rs:53`, `mtype.rs:124-141`). So a value typed by itself would recurse through its type text without ever reaching the depth error; the model's formatting always terminates.
- `Objects.UnOp`: the second result (the value written back by impure operators) is never produced, since every default fails.
- Custom overrides are given as their results. An override that returns the object itself cannot be written as a datatype value. In `types.rs` such an override recurses until the depth limit. In `object.rs` it recurses without bound, because the guard is commented out (`object.rs:37-39`).
- `TypeSystem.NewObjField`: the getter and setter closures are stored, not invoked. The source's `get`/`set` call themselves.
- `Machine.CallSpec`: positional and keyword arguments and the return annotation of `MshFunction` are not bound, as in the source body.
- `none::create_none_type` and `MshNoneValue`'s lazy singleton are not part of this model; the `none` type is a parameter of `TypeSystem.InitTypeSystem`.
- `MString` in `object.rs` is not part of this model as a separate file. It is taken to behave like `MshString`: the content as is, quoted in debug.
- `Builtins::get_type` returns an `Option` here. The source declares a bare reference but returns the optional map lookup.
- Object addresses printed by `{:p}` are a parameter `addr`, not memory addresses.

## Findings

| source | as written | input that shows it | evidently intended | confidence | as-written member | corrected member |
|---|---|---|---|---|---|---|
| src/interpreter/stackmachine_old.rs:26-33 | a non-empty list prints its first item, then folds over ALL items, each prefixed by ", " | `List([Int(1)])` prints "[1, 1]" | the fold skips the first item, giving "[1]" | not executed | StaticValues.ObjectToStringAsWritten | StaticValues.ObjectToString |
