# DarkClient core in Dafny

DarkClient is a Minecraft client injected into the game's JVM. This project
models its core and proves properties of that model:

- **The agent loader** (`agent_loader/src/lib.rs`). It keeps one slot for the
  loaded client library. Around that slot it runs unload, load and reload
  (through a timestamped temporary copy), the unload hook and the install-once
  signal-handler guard. It also models the JVM health monitor, which gives up
  after three failed cycles in a row, and the parsing of the one-line socket
  command (`reload <path>`).
- **The mapping layer** (`client/src/mapping/`):
  - a mapped class with its overload lists and fields;
  - the tokeniser for JNI method descriptors;
  - the grading of a JNI argument against a parameter type (Exact,
    Compatible, Incompatible);
  - overload choice;
  - the class-name and array compatibility tables;
  - the reading of the `methods` object, whose values are a single method
    or an array of methods;
  - the mapping-wide class lookup and the JNI requests built from it;
  - the class-type names, the version triple with its order and parser, and
    the version-dependent method name.
- **The mapping converter** (`conversion.py`). It turns ProGuard text into
  the JSON the client reads. The model has the Java-to-JVM type
  conversion, method signatures, the line filter and the two passes.
  Overloads are flushed as a single object or an array. The model proves
  that converting and then reading back gives each class's overload lists.
- **The client** (`client/src/client.rs`, `client/src/module/mod.rs`):
  - the module registry and its tick;
  - the keyboard loop, which toggles a module on the rising edge of its key;
  - the run flag that starts and stops that loop;
  - module categories, the module data record and the GLFW key codes.

Each source file is its own Dafny module:

| Dafny module | file |
|---|---|
| Loader | loader.dfy |
| MappingClass | class.dfy |
| GameMapping | mapping.dfy |
| ClassType | class_type.dfy |
| Version | version.dfy |
| MethodNames | method_name.dfy |
| Conversion | conversion.dfy |
| Modules | modules.dfy |
| Client | client.dfy |

Strings (`strings.dfy`) holds the text helpers several of them share:
- Rust's and Python's whitespace trimming;
- `split`, `splitn(2, …)` and `join`;
- `replace('.', '/')`;
- decimal printing and `u32` parsing.

Results (`results.dfy`) holds Option and Result.

Where the state is changed in place, the model is imperative:
- the loader's statics are the fields of the `AgentLoader` class;
- the registry and the module records are the classes `DarkClient` and
  `ModuleData`;
- the keyboard thread's key set is the class `KeyboardHandler`.

Each method is proved against a pure function of the old state. Loops in the
source are methods with loop invariants, each proved equal to a pure
reference function:
- the descriptor tokeniser;
- the signature grade;
- the overload scan;
- the `methods` visitor;
- the converter's passes;
- the key poll.

A JNI call or a JVM answer is a field of the `Jvm` value. A file-system or
linker answer is a field of the `Host` value. The key state is a `down`
function. The iteration order of a `HashMap` is an `order` parameter.

Behaviour of the code that its structure does not suggest:
- An empty or blank command line yields `Unknown("")`, not an "empty
  command" report. `splitn` always yields at least one part, so the `None`
  arm at `agent_loader/src/lib.rs:354` cannot be reached.
- `load_client_library` unloads the current library before it checks that
  the new path exists. A load of a missing path therefore still empties the
  slot.
- The unload hook empties the slot without calling the library's
  `cleanup_client`.
- Version parsing accepts leading zeros and a leading `+` (`"01.2.3"` reads as
  1.2.3), because `u32::from_str` does.
- In `client/src/mapping/mod.rs`, `get_method_by_args` and `get_field` return
  an `anyhow::Result`, but the accessors read `.name` of it directly, so the
  code as shipped does not type-check. The model passes the lookup error on
  as the result.

## Model

| member | source | states |
|---|---|---|
| Loader.CleanupCalls | agent_loader/src/lib.rs:238-245 | a cleanup call is made exactly when a library is held and exports `cleanup_client`, and it is that library's cleanup |
| Loader.InitCalls | agent_loader/src/lib.rs:216-223 | the initializer is called exactly when the library exports `initialize_client` |
| Loader.UnloadIdempotent | agent_loader/src/lib.rs:233-258 | unloading twice equals unloading once; unloading an empty slot changes nothing |
| Loader.LoadOutcome | agent_loader/src/lib.rs:185-230 | a load succeeds exactly when the path exists and the linker opens it; on success the new library is held and the calls are the old cleanup then the new initializer; on failure the slot is left unloaded; a missing path gives the Missing error |
| Loader.LoadTwice | agent_loader/src/lib.rs:191-226 | loading the same library again runs its cleanup and then its initializer once more |
| Loader.TempNameShape | agent_loader/src/lib.rs:279 | the temporary name is `temp_`, the decimal timestamp, `_` and the file name, at those positions |
| Loader.TempNameInjective | agent_loader/src/lib.rs:279 | different timestamps or file names never share a temporary name |
| Loader.UnquotedPlain | agent_loader/src/lib.rs:288-290 | a path that neither starts nor ends with a quote comes through the quoting and quote-stripping unchanged |
| Loader.ReloadOutcome | agent_loader/src/lib.rs:261-308 | a bad file name, a failed copy or a missing absolute path each fail with their own error and change nothing; otherwise the copy is scheduled for deletion before it is loaded, and the result is that load's; a successful reload leaves a library held |
| Loader.NoEmptyCommand | agent_loader/src/lib.rs:335-357 | the "empty command" case never arises; a blank line is an unknown command with an empty word |
| Loader.ReloadCommandMeaning | agent_loader/src/lib.rs:336-346 | a line is a reload with path `p` exactly when, trimmed, it is `reload`, one space, and `p` |
| Loader.ReloadWithoutPathMeaning | agent_loader/src/lib.rs:336-349 | a line is a reload without a path exactly when, trimmed, it is `reload` |
| Loader.UnknownCommandWord | agent_loader/src/lib.rs:337-352 | an unknown command reports the first space-free word of the trimmed line, and that word is not `reload` |
| Loader.UnknownCommandOf | agent_loader/src/lib.rs:337-352 | any first word other than `reload` is reported as unknown |
| Loader.InjectorCommand | injector/src/platform/unix.rs:68 | the command the injector sends, `reload ` and a path, read back through one `read_line`: a path without a newline and not ending in whitespace comes back as a reload of exactly that path; a path holding a newline never comes back whole |
| Loader.ReadLine | agent_loader/src/lib.rs:334 | the line read is a prefix of what was received: all of it when it holds no newline, else up to and including the first newline |
| Loader.Watch | agent_loader/src/lib.rs:117-158 | the monitor declares the VM dead exactly when the failure count reaches three; the count never passes three; a monitor that does not declare death runs every cycle |
| Loader.WatchDies | agent_loader/src/lib.rs:143-157 | the monitor declares death exactly when the first cycles complete the pending run to three failures, or when three consecutive failing cycles occur somewhere |
| Loader.HealthyNeverDies | agent_loader/src/lib.rs:143-157 | when every cycle passes all three checks, the monitor never declares death |
| Loader.StepDies | agent_loader/src/lib.rs:143-154 | a failing cycle that brings the count to three ends the monitor after that cycle |
| Loader.StepOn | agent_loader/src/lib.rs:143-157 | a cycle below the limit adds one to the count on failure, resets it on success, and the monitor goes on |
| Loader.AgentLoader.constructor | agent_loader/src/lib.rs:20-22 | the process starts with an empty slot, running set, no handlers and no deletions |
| Loader.AgentLoader.UnloadClientLibrary | agent_loader/src/lib.rs:233-258 | always returns Ok; the slot changes as the pure unload says, and nothing else changes |
| Loader.AgentLoader.LoadClientLibrary | agent_loader/src/lib.rs:185-230 | slot and result are those of the pure load; nothing else changes |
| Loader.AgentLoader.ReloadClientLibrary | agent_loader/src/lib.rs:261-308 | slot, deletion list and result are those of the pure reload |
| Loader.AgentLoader.ServeLine | agent_loader/src/lib.rs:335-357 | the first line received is the command: a reload-with-path line performs that reload; any other line changes nothing |
| Loader.AgentLoader.OnUnload | agent_loader/src/lib.rs:55-66 | clears the running flag; the first call empties the slot without any cleanup call, and later calls leave the slot alone |
| Loader.AgentLoader.SetupSignalHandlers | agent_loader/src/lib.rs:69-93 | the handlers are installed at most once, however often it is called |
| Loader.AgentLoader.MonitorHealth | agent_loader/src/lib.rs:117-158 | while running, the verdict is the pure monitor's; a verdict of death runs the unload hook through `on_vm_death` (lines 179-182) (running cleared, slot emptied); otherwise nothing changes |
| MappingClass.ObjectToken | client/src/mapping/class.rs:229-238 | an object type token is a nonempty prefix of the remaining text |
| MappingClass.FirstToken | client/src/mapping/class.rs:222-261 | an accepted token is a nonempty prefix of the remaining text |
| MappingClass.ParameterText | client/src/mapping/class.rs:203-214 | a missing `(` and a missing `)` are reported exactly in those cases; the text between the parentheses has no `)` |
| MappingClass.ExtractParameterTypes | client/src/mapping/class.rs:202-265 | the scanning loop returns exactly the reference tokenisation of the signature |
| MappingClass.ReadToken | client/src/mapping/class.rs:222-261 | one token read from a position is the reference first token, and the position moves past it |
| MappingClass.ScanObject | client/src/mapping/class.rs:229-238 | the object scan stops after the first `;` or at the end of the text |
| MappingClass.TokensSound | client/src/mapping/class.rs:219-264 | the tokens of an accepted parameter list concatenate back to it and form a well-formed list |
| MappingClass.TokensComplete | client/src/mapping/class.rs:219-264 | every well-formed list of tokens is read back, from its concatenation, as exactly that list |
| MappingClass.DoubleArrayRejected | client/src/mapping/class.rs:240-256 | a two-level array (`[[`) after complete tokens makes the whole list an error |
| MappingClass.ParameterTypesOfDescriptor | client/src/mapping/class.rs:202-265 | for `(p)ret` with no `)` in `p`, the parameter types are the tokens of `p`, and none when `p` is empty |
| MappingClass.NoParameters | client/src/mapping/class.rs:524-526 | `()` followed by any return type has no parameters |
| MappingClass.PrimitiveParameter | client/src/mapping/class.rs:528-530 | a primitive letter alone is one token |
| MappingClass.PrimitiveArrayParameter | client/src/mapping/class.rs:532-534 | `[` and a primitive letter is one token |
| MappingClass.ObjectBetweenPrimitives | client/src/mapping/class.rs:536-539 | `I`, an object type and `F` are three tokens in order |
| MappingClass.ParameterTypesErrors | client/src/mapping/class.rs:203-212 | the three parenthesis errors: no `(`, no `)`, or `)` before `(` |
| MappingClass.DescriptorRoundTrip | client/src/mapping/class.rs:202-265 | a descriptor built from complete tokens gives those tokens back |
| MappingClass.DescriptorDeepArray | client/src/mapping/class.rs:240-256 | a descriptor with a two-level array parameter is rejected |
| MappingClass.PrimitiveGrading | client/src/mapping/class.rs:268-323 | a primitive argument is Exact exactly for its own letter, and Compatible exactly for the JLS widenings except byte to short and long to float |
| MappingClass.ObjectGrading | client/src/mapping/class.rs:268-323 | Void is never compatible; a null object fits any object or array type; an object never fits a primitive, and a primitive never fits a non-primitive type |
| MappingClass.ObjectClassGrading | client/src/mapping/class.rs:326-375 | against `java/lang/Object` an object is Compatible; otherwise Exact exactly when attached, its class is fetched, the expected class is found and they are the same; unattached it is Incompatible |
| MappingClass.ArrayGrading | client/src/mapping/class.rs:378-410 | an array argument is Exact exactly when its slashed class name equals the type; Compatible only when the array compatibility table accepts the names |
| MappingClass.GradingExamples | client/src/mapping/class.rs:551-566 | int to `I` is Exact, byte to `I` is Compatible, double to `I` is Incompatible |
| MappingClass.ArgumentGrades | client/src/mapping/class.rs:176-190 | one grade per argument |
| MappingClass.ArgumentGradeAt | client/src/mapping/class.rs:176-190 | the grade at a position is that argument graded against that parameter |
| MappingClass.EvaluateSignatureCompatibility | client/src/mapping/class.rs:162-196 | the loop returns exactly the reference grade of the signature |
| MappingClass.SignatureGradeMeaning | client/src/mapping/class.rs:162-196 | a signature is Incompatible exactly when it fails to tokenise, has the wrong arity, or has an Incompatible argument; it is Exact exactly when every argument is Exact |
| MappingClass.EmptySignatureExact | client/src/mapping/class.rs:162-196 | a no-parameter signature is an Exact match for no arguments |
| MappingClass.GetMethods | client/src/mapping/class.rs:95-100 | returns the overload list exactly when the name is present, and otherwise a not-found error |
| MappingClass.GetMethod | client/src/mapping/class.rs:88-93 | panics exactly when the name is absent; returns the first overload exactly when the list is nonempty |
| MappingClass.FindBySignature | client/src/mapping/class.rs:104 | the index of the first overload with that signature, or the length when there is none |
| MappingClass.GetMethodBySignature | client/src/mapping/class.rs:102-112 | an absent name is a not-found error; a result is the first overload with that signature; a signature error means no overload has it; it never panics |
| MappingClass.GetField | client/src/mapping/class.rs:503-508 | returns the field exactly when the name is present, and otherwise a not-found error |
| MappingClass.Grades | client/src/mapping/class.rs:126-127 | one grade per overload |
| MappingClass.GradeOf | client/src/mapping/class.rs:126-127 | the grade at a position is that overload's signature grade |
| MappingClass.FirstWith | client/src/mapping/class.rs:129-132 | the first position holding a grade |
| MappingClass.LastWith | client/src/mapping/class.rs:134-139 | the last position holding a grade, and None exactly when no position holds it |
| MappingClass.ChoiceIsOverload | client/src/mapping/class.rs:114-159 | with at least one overload, the choice is always one of them |
| MappingClass.ExactBeatsCompatible | client/src/mapping/class.rs:126-139 | with several overloads, an Exact one at any position means an Exact overload at or before it is chosen |
| MappingClass.OverloadChoice | client/src/mapping/class.rs:118-158 | with several overloads: the earliest Exact, else the latest Compatible, else the first overload |
| MappingClass.GetMethodByArgs | client/src/mapping/class.rs:114-159 | an absent name is a not-found error; otherwise the scan returns the reference overload choice, including the panic on an empty list |
| MappingClass.AreCompatibleTypes | client/src/mapping/class.rs:445-468 | equal names are compatible, and the only other accepted expected types are the four listed interfaces |
| MappingClass.ExtractArrayComponentType | client/src/mapping/class.rs:495-501 | a component exists exactly for a `[` followed by at least one character, and `[` plus the component is the type |
| MappingClass.AreCompatibleArrayTypesAsWritten | client/src/mapping/class.rs:471-491 | for ASCII descriptors, the code as written panics exactly when both components are object types and one of them is a bare `L` |
| MappingClass.ArrayTypesPanic | client/src/mapping/class.rs:484-485 | `[Ljava/lang/String;` against `[L` reaches that panic |
| MappingClass.BareArrayObjectToken | client/src/mapping/class.rs:240-258 | the tokeniser accepts `[L` as a parameter type, so that input can reach the array table |
| MappingClass.ArrayTypesCompatibility | client/src/mapping/class.rs:471-491 | the corrected table agrees with the code wherever the code does not panic; it accepts only array descriptors, accepts a one-letter component only against the same letter, and accepts each primitive array against itself |
| MappingClass.ObjectArrayTypes | client/src/mapping/class.rs:481-486 | two arrays of classes are compatible exactly when their class names are |
| MappingClass.GradingWherePanics | client/src/mapping/class.rs:399-407 | a non-null array of objects (such as `java.lang.String[]`) graded against the bare `[L`: the code as written panics there, and the model's grading says Incompatible |
| MappingClass.DeserializeMethods | client/src/mapping/class.rs:24-43 | the visitor loop builds exactly the reference decoding of the entries |
| MappingClass.DecodeKeys | client/src/mapping/class.rs:30-39 | the decoded names are exactly the entries' keys |
| MappingClass.DecodeLastWins | client/src/mapping/class.rs:33-38 | for a repeated key the last entry is kept; a single method becomes a one-element list |
| MappingClass.DecodeDistinct | client/src/mapping/class.rs:33-38 | with distinct keys every entry is kept as its list |
| MappingClass.DecodeListing | client/src/mapping/class.rs:30-39 | reading any listing of a JSON object decodes to that object's values as lists |
| GameMapping.GetClass | client/src/mapping/mod.rs:88-92 | returns the class exactly when the name is present, and panics otherwise |
| GameMapping.SignatureShapes | client/src/mapping/mod.rs:52-67 | primitives give their one letter, String gives `Ljava/lang/String;`, an object gives `L`, the mapped name and `;`, and an unmapped object panics |
| GameMapping.PrimitiveLettersDistinct | client/src/mapping/mod.rs:54-61 | no two primitive field types share a letter |
| GameMapping.SingleParameter | client/src/mapping/mod.rs:52-67 | a complete token as the only parameter tokenises back to itself |
| GameMapping.ObjectToken | client/src/mapping/mod.rs:63-66 | `L`, a name without `;` or `)`, and `;` is a complete token |
| GameMapping.SignatureTokenises | client/src/mapping/mod.rs:52-67 | a field type's signature, used as a parameter, is read back by the descriptor tokeniser as that one type |
| GameMapping.CallStaticMethod | client/src/mapping/mod.rs:94-112 | panics when the class is missing or not found by the JVM; an absent method name is a not-found error; otherwise the request is a static call on that class with the chosen overload, which is one of the overloads |
| GameMapping.CallMethod | client/src/mapping/mod.rs:114-130 | the same as the static call, without looking up the class in the JVM |
| GameMapping.GetStaticField | client/src/mapping/mod.rs:132-147 | succeeds exactly when the class is ready and found, the field is mapped and the type has a signature; names the mapped field with that signature |
| GameMapping.FieldRequest | client/src/mapping/mod.rs:149-179 | a get or set on an instance succeeds exactly when the class is ready, the field is mapped and the type has a signature |
| GameMapping.FieldLookupFirst | client/src/mapping/mod.rs:140-178 | an unmapped field name is reported as not found by all three field accessors |
| ClassType.AllTypesComplete | client/src/mapping/class_type.rs:5-14 | the list of class types holds every type |
| ClassType.Ordinal | client/src/mapping/class_type.rs:5-14 | each type has its position in that list |
| ClassType.GetNameInjective | client/src/mapping/class_type.rs:17-28 | no two class types share a name |
| ClassType.NamesAreInternal | client/src/mapping/class_type.rs:17-28 | every name is nonempty and in slashed internal form |
| ClassType.NamesAreSlashed | client/src/mapping/class_type.rs:17-28 | replacing dots by slashes leaves every name unchanged |
| ClassType.Display | client/src/mapping/class_type.rs:32-35 | the display text is the internal name |
| Version.LessIsStrictTotalOrder | client/src/mapping/minecraft_version.rs:3-8 | the derived order on (major, minor, patch) is irreflexive, asymmetric, transitive and total |
| Version.BadFormatMeaning | client/src/mapping/minecraft_version.rs:30-37 | the format error arises exactly when the text does not contain exactly two dots |
| Version.ComponentErrors | client/src/mapping/minecraft_version.rs:39-47 | the major, minor and patch errors arise exactly when that part is the first one that fails to parse |
| Version.ParseSound | client/src/mapping/minecraft_version.rs:29-53 | a parsed version has exactly three parts, each the parsed number |
| Version.SplitCount | client/src/mapping/minecraft_version.rs:30 | splitting on a separator gives one more part than there are separators |
| Version.SplitThree | client/src/mapping/minecraft_version.rs:30 | three dot-free parts joined by dots split back into those parts |
| Version.ParseToString | client/src/mapping/minecraft_version.rs:19-53 | parsing a printed version gives it back |
| Version.LeadingZeroAccepted | client/src/mapping/minecraft_version.rs:39-47 | a text with an extra leading zero also parses to the same version, so parsing is not injective |
| Version.LeadingZeroExample | client/src/mapping/minecraft_version.rs:39-47 | `01.2.3` parses as 1.2.3 |
| Strings.ParseU32 | client/src/mapping/minecraft_version.rs:40 | after an optional leading `+`, a part is accepted exactly when it is a non-empty run of digits whose value is at most 4294967295, and the result is that value |
| Strings.ParseDecimal | client/src/mapping/minecraft_version.rs:40 | every number up to 4294967295, printed in decimal, parses back to itself |
| MethodNames.WindowGetterNames | client/src/mapping/method.rs:9-19 | the window getter is `getWindow` exactly before 1.21.9 and `handle` exactly from 1.21.9 on |
| MethodNames.NewNameMonotone | client/src/mapping/method.rs:12-16 | once a version uses `handle`, every later version does too |
| MethodNames.WindowGetterBoundaries | client/src/mapping/method.rs:12-16 | the name at versions on both sides of 1.21.9 |
| Conversion.ConvertJavaType | conversion.py:142-159 | the result starts with exactly one `[` per `[]` pair and has an element after them |
| Conversion.ElementDescriptor | conversion.py:147-157 | an element descriptor starts with `L`, `V` or a primitive letter |
| Conversion.FirstWord | conversion.py:166 | the first word is a space-free prefix |
| Conversion.ParamDescriptors | conversion.py:163-167 | no parameter text gives no parameters; otherwise one descriptor per comma-separated part, converted from that part |
| Conversion.GetMethodSignature | conversion.py:161-170 | the loop builds exactly the reference signature |
| Conversion.Encode | conversion.py:215-220 | flushing an overload list gives back that list, as a single object exactly when it has one method |
| Conversion.KeptLines | conversion.py:189 | the filter never adds lines |
| Conversion.FlushOverloads | conversion.py:213-223 | the flush, also made after the last line (lines 253-260), stores the current class's overloads as the reference flush does |
| Conversion.FirstPass | conversion.py:192-203 | the first pass is the reference first pass, and every class header in the text gets an entry |
| Conversion.SecondPassLine | conversion.py:210-250 | one line of the second pass is one reference step |
| Conversion.SecondPass | conversion.py:207-260 | the second pass and its final flush are the reference run and flush |
| Conversion.ParseMappings | conversion.py:172-263 | the converter returns exactly the reference mappings of the kept lines |
| Conversion.BareNameCount | conversion.py:144 | a text without `[` in front adds no pairs |
| Conversion.BareNameKept | conversion.py:145 | a text without `[` in front survives pair removal |
| Conversion.PairsScan | conversion.py:144-145 | `k` pairs count as `k` and are all removed |
| Conversion.ArrayConversion | conversion.py:142-159 | a type with `k` trailing `[]` converts to `k` `[` and the element type's conversion |
| Conversion.ElementConversion | conversion.py:147-157 | a primitive name converts to its letter (`void` to V, `boolean` to Z, `int` to I, `long` to J, `double` to D); any other name converts to `L`, the renamed class and `;` |
| Conversion.ConvertedIsToken | conversion.py:142-159 | a converted non-void type with at most one array level is a complete descriptor token |
| Conversion.ElementIsToken | conversion.py:147-157 | a converted non-void element is a primitive letter or a closed object type |
| Conversion.DeepArrayPrefix | conversion.py:159 | a two-level array type converts to text starting with `[[` |
| Conversion.SignatureRoundTrip | conversion.py:161-170 | when every converted parameter is a complete token, the client's tokeniser reads the generated signature back as those parameters |
| Conversion.DeepArraySignatureRejected | conversion.py:161-170 | a method with a two-level array parameter gets a signature the client's tokeniser rejects |
| Conversion.SelectAppend | conversion.py:189 | filtering distributes over concatenation |
| Conversion.BlankAndCommentLinesIgnored | conversion.py:189 | a blank line or a line starting with `#` has no effect |
| Conversion.Pass1Append | conversion.py:192-202 | the first pass over two parts is the second part's pass started from the first's result |
| Conversion.Pass1NoHeaders | conversion.py:193 | lines without class headers leave the first pass's maps unchanged |
| Conversion.RunAppend | conversion.py:210-250 | the second pass over two parts runs the second part from the first's result |
| Conversion.RunWithoutClass | conversion.py:228-229 | member lines before any class change nothing |
| Conversion.LeadingMembersIgnored | conversion.py:228-229 | member lines before the first class header do not affect the output |
| Conversion.Overloads | conversion.py:242-244 | every gathered overload list is nonempty |
| Conversion.NamesNonEmpty | conversion.py:242-244 | a gathered name has at least one overload |
| Conversion.NamesInMeaning | conversion.py:242-244 | a name is gathered exactly when some method line of the block has it |
| Conversion.LastFieldWins | conversion.py:246-250 | for a repeated field name, the last line of the block is kept |
| Conversion.FieldsUntouched | conversion.py:246-250 | a field name no line mentions keeps what it had |
| Conversion.Pass1Avoiding | conversion.py:192-202 | lines with no header for a class leave its renaming and entry alone |
| Conversion.Pass1Knows | conversion.py:192-202 | every header in the text gets an entry, and earlier entries stay |
| Conversion.RunAvoiding | conversion.py:210-250 | the second pass, away from a class's header, leaves its entry alone |
| Conversion.MemberStep | conversion.py:231-250 | inside a class, a method line appends to its name's overloads and a field line sets the field |
| Conversion.RunBlock | conversion.py:231-250 | inside a class, a header-free block appends each name's method lines and applies its field lines |
| Conversion.BlockOverloads | conversion.py:231-244 | starting from no overloads, a block gathers exactly its overload lists |
| Conversion.EnterClass | conversion.py:211-226 | a header makes its class current with no pending overloads |
| Conversion.LeaveClass | conversion.py:211-226 | the next header, or the end of the text (lines 253-260), flushes the current class's overloads into it |
| Conversion.DecodedEncoded | conversion.py:214-220 | reading the flushed `methods` object back as the client does (`client/src/mapping/class.rs` lines 33-38) gives the overload lists |
| Conversion.Pass1OfClass | conversion.py:192-202 | a class whose header appears once is renamed to its obfuscated name and starts empty |
| Conversion.ForwardReference | conversion.py:192-233 | a parameter may name a class whose header comes later; it still converts to that class's obfuscated name |
| Conversion.SecondPassOfClass | conversion.py:207-260 | a class's entry after the second pass has its block's fields and its block's overloads |
| Conversion.ClassRoundTrip | conversion.py:172-263 | for a class whose header appears once, the output entry has its obfuscated name and its block's fields, and its `methods` reads back as the block's overload lists |
| Conversion.ConvertThenDeserialize | conversion.py:172-263 | the client's reading (`client/src/mapping/class.rs` lines 24-43) of the converter's `methods` object for such a class gives that class's overload lists |
| Modules.DisplayNameRoundTrip | client/src/module/mod.rs:21-30 | display names identify categories |
| Modules.ModuleData.constructor | client/src/module/mod.rs:33-43 | a module record holds what it was made with |
| Modules.ModuleData.SetEnabled | client/src/module/mod.rs:70-72 | sets the enabled flag and nothing else |
| Modules.Code | client/src/module/mod.rs:93-201 | each key's code decodes back to that key |
| Modules.CodesDistinct | client/src/module/mod.rs:93-201 | no two keys share a code, and only KeyNone has -1 |
| Modules.LetterCodes | client/src/module/mod.rs:136-148 | a letter key's code is the letter's ASCII code |
| Modules.DigitCodes | client/src/module/mod.rs:94-108 | digit key `d` has code 48 + d |
| Modules.FunctionKeyCodes | client/src/module/mod.rs:149-190 | function key F`i` has code 289 + i, for F1 to F19 |
| Client.TickCalls | client/src/client.rs:52-60 | a tick calls `on_tick` exactly on the enabled modules and nothing else |
| Client.TickOnce | client/src/client.rs:52-60 | each enabled module ticks exactly once, and a disabled one never |
| Client.DarkClient.Enabled | client/src/client.rs:11 | the enabled flags are known for exactly the registered names |
| Client.DarkClient.Bindings | client/src/client.rs:11 | the key bindings are known for exactly the registered names |
| Client.DarkClient.constructor | client/src/client.rs:36-39 | the registry starts empty |
| Client.DarkClient.RegisterModule | client/src/client.rs:47-50 | a module enters the registry under its own name, replacing any earlier one of that name |
| Client.DarkClient.SetModuleEnabled | client/src/client.rs:116 | flips one module's flag; other flags and all bindings stay |
| Client.DarkClient.Tick | client/src/client.rs:52-60 | the tick appends to the events exactly the reference tick events |
| Client.PollStep | client/src/client.rs:99-120 | one module's visit keeps the set of names |
| Client.PollStepFrame | client/src/client.rs:99-120 | one module's visit changes no other module's flag and adds at most one event |
| Client.PollAll | client/src/client.rs:96-121 | a pass over the registry keeps the set of names |
| Client.PollAllStep | client/src/client.rs:96-121 | a pass over one more module is one more visit |
| Client.PressedAfterPoll | client/src/client.rs:101-120 | after a pass a bound key is in the held set exactly when it is down; an unbound key's membership is unchanged |
| Client.Unvisited | client/src/client.rs:96-121 | a module not visited keeps its flag |
| Client.ToggleIff | client/src/client.rs:101-116 | a module's flag flips exactly when its key is down, was not held before the pass, and no earlier module shares it |
| Client.OnlyFirstToggles | client/src/client.rs:102-103 | of two modules bound to the same key, only the one visited first can toggle |
| Client.HeldKeysDoNothing | client/src/client.rs:102 | when every down key is already held, a pass changes no flag and makes no call |
| Client.RepeatedPoll | client/src/client.rs:89-121 | a second pass with the keys unchanged toggles nothing |
| Client.ReleaseThenPress | client/src/client.rs:101-120 | releasing a key and pressing it again toggles its first module |
| Client.PollExtendsEvents | client/src/client.rs:111-115 | a pass only appends calls |
| Client.PollEventsSound | client/src/client.rs:105-116 | every call a pass makes is `on_start` or `on_stop` of a module that toggled, matching its new flag |
| Client.PollEventsComplete | client/src/client.rs:105-116 | every module that toggled gets `on_start` when now enabled and `on_stop` when now disabled |
| Client.StopIsFinal | client/src/client.rs:77-134 | after a start and a stop, no later start runs the loop again; a stop before any start does not block the next start |
| Client.KeyboardHandler.constructor | client/src/client.rs:75 | the flag is unset and no key is held |
| Client.KeyboardHandler.Start | client/src/client.rs:77-88 | sets the flag only when it was unset, and the new thread starts with no held keys |
| Client.KeyboardHandler.Stop | client/src/client.rs:126-134 | clears the flag when it was set, and does nothing otherwise |
| Client.KeyboardHandler.Visit | client/src/client.rs:97-120 | one module's visit changes flags, held keys and calls exactly as the reference visit |
| Client.KeyboardHandler.Poll | client/src/client.rs:89-121 | while the flag is set, one pass over the registry does what the reference pass does; otherwise nothing changes |

## Left out

- The JNI calls the mapping layer and the client make (`find_class`, the `call_*`, `get_*` and `set_*` field calls, `glfwGetKey`, `Class.getName`, `isInstance`), and the JVM environment itself, are not modelled. A `Jvm` value stands for their answers. A request to the JVM is returned as a value, and the JVM's reply is not modelled.
- `libloading` and the dynamic linker, the file system and the clock become the `Host` value and the `now` parameter.
- Threads and locks are left out. Each operation is one atomic step, so the model does not capture:
  - a race between the command server and the monitor;
  - a second `start_keyboard_handler` spawning a second loop beside the first.
- Sleeps, the wait-for-JVM loop before the monitor starts, the five-second deletion timer, the non-blocking accept loop and the TCP listener are left out. The monitor is given the answers of its cycles as a sequence.
- Loader.AgentLoader.MonitorHealth: the monitor's loop stops when its sequence of cycle answers runs out. The source would otherwise go on checking `RUNNING` at the top of each cycle.
- Loader.Unquoted: Rust's `{:?}` escaping of backslashes and control characters in the path is not modelled. Only the surrounding quotes are added and stripped.
- The `ctor`/`dtor` hooks and `agent_onload` are left out: they only call the operations that are modelled. So are logging and `log_expect` messages; a `log_expect` on a missing value is a `Panic` outcome.
- Conversion: the regular expressions are left out. Kept lines arrive already classified as a class header, a method line, a field line or another line, with their captured groups. The download, version menu and JSON writing of `conversion.py` are left out as well.
- Conversion.ClassRoundTrip: proved for a class whose header appears once in the text. A repeated header resets the entry in the first pass, and the model keeps that behaviour, but there is no lemma for it.
- `Mapping::new`, the embedded `mappings.json` and serde's JSON parsing are left out. The `methods` object arrives as a sequence of entries in file order.
- Float and double payloads of `JValue`, `ModuleSetting` (floats), the module's player handle, and `new_global_ref`/`get_string` (JNI only) are left out.
- MappingClass.CheckTypeCompatibility: grades array arguments with the corrected table `AreCompatibleArrayTypes`. Where the code panics in `are_compatible_array_types` (see Findings), the model's grade is Incompatible and grading goes on; `MappingClass.GradingWherePanics` shows that case.
- MappingClass.ArrayGrading: states the grade of the corrected table, so it does not reproduce the panic of the code as written.
- MappingClass.EvaluateSignatureCompatibility: grades through the corrected table, so a signature with a bare `[L` against a non-null array argument gets a grade where the code panics.
- MappingClass.ChooseOverload: chooses from grades made with the corrected table, so it does not reproduce that panic.
- MappingClass.GetMethodByArgs: returns the overload chosen from corrected grades where the code panics.
- GameMapping.CallStaticMethod: calls through the corrected grading, so it does not reproduce that panic.
- GameMapping.CallMethod: calls through the corrected grading, so it does not reproduce that panic.
- MappingClass.AreCompatibleArrayTypesAsWritten: descriptors and class names are taken to be ASCII. Rust's `len()` and slices count bytes, and a slice that ends inside a multibyte character panics; the model counts characters and has no such panic.
- Client.KeyboardHandler.Poll: takes the registry's iteration order as a parameter, because `HashMap` order is unspecified. The key state of one pass is a fixed `down` function.
- Client.DarkClient: `instance`, `new` and `get_env` are left out; they only acquire the JVM.
- The injector is left out, except for the command string it sends (`injector/src/platform/unix.rs:68`, `injector/src/platform/windows.rs:62`).

## Findings

| source | as written | input that shows it | evidently intended | confidence | as-written member | corrected member |
|---|---|---|---|---|---|---|
| client/src/mapping/class.rs:484-485 | `are_compatible_array_types` slices `[1..len-1]` of both components once both start with `L`. A bare component `L` makes that slice `[1..0]`, which panics. | actual `[Ljava/lang/String;`, expected `[L`. The tokeniser accepts `[L` as a parameter type (signature `([L)V`), so a non-null array argument graded against it reaches the panic. | Reject such pairs, or compare only well-formed object components, instead of panicking. | not executed | MappingClass.AreCompatibleArrayTypesAsWritten, MappingClass.ArrayTypesPanic | MappingClass.AreCompatibleArrayTypes, MappingClass.ArrayTypesCompatibility |
