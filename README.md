# CppCSharpBridge core, modelled in Dafny

CppCSharpBridge reads a binding description file and writes the code that binds a
C++ library to C# through Mono. The file holds `namespace`, `type`, `class`,
`struct` and `enum` blocks and global options. This project models the three
parts of the program that carry its logic:

- The declaration model (`Program.cs`). Contexts (`WrapContext`) and types
  (`WrapType` and its subclasses) form an arena: a `Table` of scopes and
  declarations indexed by `ScopeId` and `TypeId`. An index stands for an
  object's identity. Scope lookup, qualified names, `findType`, `clone`,
  `getMethodUniqueIndex`, `findMethod`, `isFinalMethod`, `isMethodOverride`,
  `hasVirtualMethods` and the argument lists are modelled over this table.
- The parser (`Parser.cs`). A Dafny class `Parsing.Parser` keeps the cursor
  fields of the source (`lines`, `lineIndex`, `line`, `charIndex`,
  `currentContext`) and the generator state. Its methods are the parse
  routines: `parseWord`, `nextLine` and the other cursor primitives, the block
  parsers, `parseFile`, `finalize`, `finalizeClass` and `finalizeEnum`. Each
  method is proved against a function of the input lines. Those functions
  (modules `Lexing`, `Syntax`, `Blocks`, `Members`) state what a line or a
  block means, and lemmas about them state what the source promises.
- The generator (`Generator.cs`). Its type and class lookups, `sortClasses`,
  the split of classes into the two binding directions, and the names and
  parameter lists that the managed and native halves of a binding must agree
  on.

The main results are:

- `sortClasses` returns a permutation of its input in which every class comes
  after its parent. When it fails, every class it leaves waits on a parent
  that is left too (a cycle) or that lies outside its batch.
- When a managed class's methods are distinct objects and its variables have
  distinct names, every `extern` it declares has a name of its own. The
  parser does not check variable names, and two `var` lines of one name make
  the class declare the same accessor name twice. The native side registers
  a function under exactly the extern names, in the same order.
- The managed declaration, the managed call, the native function and the
  registration cast agree on the parameter count. They also agree on which
  arguments cross by reference.
- `parseFile` fails on an empty file and throws on a leading `include`. On
  success every enum bears the names of the class or struct that owns it.
- `finalize` gives every listed class its final value, also when a class is
  listed twice.

Outcomes follow the source: `Success` for `true`, `Failure` for `false`, and
`Thrown` where the source would throw (a duplicate `Dictionary.Add`, a null
dereference, unbounded recursion).

## Model

| member | source | states |
|---|---|---|
| Text.IndexOfAny | CppCSharpBridge/Parser.cs:163-165 | The position String.IndexOfAny returns is -1 or lies between the start and the end of the line |
| Text.IndexOfAnySpec | CppCSharpBridge/Parser.cs:163-165 | -1 means no end character lies at or after the start; otherwise the position holds one and none comes before it |
| Text.SplitQualified | CppCSharpBridge/Program.cs:541 | Splitting on "." and "::" yields at least one segment, and no segment holds a separator |
| Text.NatToString | CppCSharpBridge/Generator.cs:1402 | The decimal rendering of an overload index: non-empty, digits only, no leading zero |
| Text.NatToStringRoundTrip | CppCSharpBridge/Generator.cs:1402 | Reading the digits back gives the number |
| Text.NatToStringInjective | CppCSharpBridge/Generator.cs:1402 | Distinct indices render as distinct strings |
| Text.SuffixedNumbersDistinct | CppCSharpBridge/Generator.cs:1402 | The same prefix with distinct indices gives distinct names |
| Text.DigitSuffixUnique | CppCSharpBridge/Generator.cs:1402 | A name, "_" and an index can be read back from their concatenation |
| Text.ReplaceAbsent | CppCSharpBridge/Parser.cs:743 | Replacing "." by "::" leaves a name without "." unchanged |
| Text.SplitJoin | CppCSharpBridge/Program.cs:539-543 | Splitting a "."-joined list of simple names gives the list back |
| Text.JoinSplit | CppCSharpBridge/Program.cs:539-543 | A name without ':' is rebuilt by joining its segments with "." |
| Symbols.EmptyTableValid | CppCSharpBridge/Generator.cs:60-61 | The generator's initial table (the default context alone) is well formed |
| Symbols.FindContext | CppCSharpBridge/Program.cs:531-537 | A child scope is found iff the name is among the children; it carries that name and has the scope as its parent |
| Symbols.FindTypeAt | CppCSharpBridge/Program.cs:544-568 | A type found for a segment list bears the list's last segment as its name |
| Symbols.FindType | CppCSharpBridge/Program.cs:539-543 | A type found is a declaration of the table |
| Symbols.Anchor | CppCSharpBridge/Program.cs:552-567 | The scope the lookup settles in is the starting scope or one of its ancestors, never a sibling |
| Symbols.FindTypeInner | CppCSharpBridge/Program.cs:557-567 | Below the first segment the lookup is a plain descent through child scopes: a miss there is final, with no retry from the parent |
| Symbols.FindTypeAnchored | CppCSharpBridge/Program.cs:544-568 | The lookup is a descent from the nearest scope, walking up from the start, whose children (or types, for a one-segment name) hold the first segment; a miss below it is final, and a name anchored nowhere is not found (null at the root) |
| Symbols.ContextList | CppCSharpBridge/Program.cs:602-616 | The path starts at the root, ends at the scope, and each entry is the parent of the next |
| Symbols.BuildQualifiers | CppCSharpBridge/Program.cs:586-601 | The loop inserting at the front yields the non-empty scope names from the root down |
| Symbols.BuildNamespaces | CppCSharpBridge/Program.cs:570-585 | The loop yields the non-empty names of the scopes without a source type, root first |
| Symbols.BuildContextList | CppCSharpBridge/Program.cs:602-616 | The loop yields the path from the root to the scope |
| Symbols.QualifiersFollowContextList | CppCSharpBridge/Program.cs:586-616 | The qualifiers are the non-empty names along the context list |
| Symbols.NamespacesWithinQualifiers | CppCSharpBridge/Program.cs:570-601 | The namespaces are a subsequence of the qualifiers |
| Symbols.NamespacesEqualQualifiers | CppCSharpBridge/Program.cs:570-601 | Inside namespaces only, both lists are equal |
| Symbols.BuildQualifiedName | CppCSharpBridge/Program.cs:79-102 | The loop yields the qualifiers each followed by the delimiter (the last one only when the name is included), then the name; just the name without a parent context |
| Symbols.BuildNamespaceString | CppCSharpBridge/Program.cs:103-118 | The loop yields the namespaces joined by the delimiter |
| Symbols.DescendAlongQualifiers | CppCSharpBridge/Program.cs:544-601 | Descending from the root along a scope's qualifiers reaches that scope |
| Symbols.QualifiedNameResolves | CppCSharpBridge/Program.cs:79-102 | A filed type with simple names throughout is found again from the root under its "."-qualified name |
| Symbols.ChildOfRootFirst | CppCSharpBridge/Program.cs:586-601 | The first qualifier of a non-root scope names a child of the root |
| Symbols.CloneType | CppCSharpBridge/Program.cs:212-242 | The clone is a plain type with every WrapType field copied, its block list equal but its own |
| Symbols.CloneMethod | CppCSharpBridge/Program.cs:404-417 | The clone is a new method object with the same name, return type, flags and arguments |
| Symbols.CloneOfStructIsUnboxed | CppCSharpBridge/Program.cs:159-198 | A struct boxes its pass and convert fields; its clone, a plain type, passes its own fields through |
| Symbols.FirstNamed | CppCSharpBridge/Program.cs:335-343 | The position of the first method of that name, with none of that name before it; None iff there is none |
| Symbols.FindMethod | CppCSharpBridge/Program.cs:335-343 | A method is found iff one has that name, and it is the first such |
| Symbols.GetMethodUniqueIndex | CppCSharpBridge/Program.cs:322-333 | The number of earlier same-named methods before the method's first occurrence; 0 when it is not in the list |
| Symbols.UniqueIndexCounts | CppCSharpBridge/Program.cs:322-333 | The recursive and counting readings of the discriminator agree |
| Symbols.OverloadIndicesIncrease | CppCSharpBridge/Program.cs:322-333 | Among distinct methods, a later overload of the same name gets a strictly larger index |
| Symbols.ThreeUpdates | CppCSharpBridge/Program.cs:322-333 | Three distinct methods named Update get 0, 1 and 2 |
| Symbols.IsAbstract | CppCSharpBridge/Program.cs:295-303 | True iff some own method is abstract |
| Resolve.NewGenerator | CppCSharpBridge/Generator.cs:60-62 | A new generator has a well-formed table and empty class, enum and struct lists |
| Resolve.ResolveWithoutModifier | CppCSharpBridge/Generator.cs:109-127 | Without a leading modifier a type found is returned as it is; otherwise a fresh passthrough whose name, types, pass fields and names all equal the name, with no converts |
| Resolve.ResolveWithModifier | CppCSharpBridge/Generator.cs:67-107 | A leading "*" or "&" is stripped and the rest resolved; the result is a plain copy differing only in the two C++ converts, set to that modifier's templates, so the declaration stored in the scope is unchanged |
| Resolve.FindClass | CppCSharpBridge/Generator.cs:129-140 | A class is found iff the name is non-empty and resolves from the context to a class declaration, and then it is that declaration |
| Resolve.ParentOf | CppCSharpBridge/Generator.cs:135-140 | The parent class, when it resolves, is a declaration of the table |
| Resolve.Ancestors | CppCSharpBridge/Generator.cs:181-195 | The chain of parents, nearest first: each entry is the parent of the one before, and the last has none |
| Resolve.FirstDeclaring | CppCSharpBridge/Program.cs:363-386 | The first class of the lineage having a method of that name, with none before it; None iff no class has one |
| Resolve.IsFinalMethodSpec | CppCSharpBridge/Program.cs:363-386 | isFinalMethod holds iff the first class of the lineage having a method of that name has m as its first such method; false when none has one |
| Resolve.IsMethodOverrideSpec | CppCSharpBridge/Program.cs:344-361 | isMethodOverride holds iff some class of the lineage, the class itself included, has a first same-named method other than m |
| Resolve.OwnMethodFinalOrOverride | CppCSharpBridge/Program.cs:344-386 | For an own method: final iff it is its class's first of that name; and every own method is final or an override |
| Resolve.HasVirtualMethodsSpec | CppCSharpBridge/Program.cs:304-321 | When the walk ends at a class without a parent name, hasVirtualMethods holds iff some class of the lineage has a virtual method |
| Resolve.ClassHasDeconstructor | CppCSharpBridge/Generator.cs:181-195 | The loop answers true iff no strict ancestor has a constructor |
| Resolve.FindIfParentClass | CppCSharpBridge/Generator.cs:141-149 | True iff some class names that name as its parent |
| Resolve.FirstWithUniqueName | CppCSharpBridge/Generator.cs:154-162 | The first class in the list with that unique name, none before it bearing it |
| Resolve.FindIfPolymorphic | CppCSharpBridge/Generator.cs:150-179 | The two loops answer the polymorphism predicate: the first class with that unique name has a base name, or some class's base resolves, from its own parent context, to a class with that unique name |
| Resolve.ArgDefs | CppCSharpBridge/Program.cs:419-435 | One parameter declaration per argument |
| Resolve.ArgCalls | CppCSharpBridge/Program.cs:436-469 | One call entry per argument |
| Resolve.GetCppArgDef | CppCSharpBridge/Program.cs:419-435 | The loop yields the resolved C++ type and name of each argument, joined by ", " |
| Resolve.GetCppArgCall | CppCSharpBridge/Program.cs:436-469 | The loop yields each argument's call entry ("*" for a struct not moved out or a C++ reference, then the name, or arg{i} after "&" when moved out if the type converts in), joined by ", " |
| Declare.GrowsTransitive | CppCSharpBridge/Parser.cs:337-431 | Adding scopes and declarations in two steps is adding them |
| Declare.GrowsKeepsLookups | CppCSharpBridge/Program.cs:531-537 | A child scope or a filed type, once there, stays with the same answer as the table grows |
| Declare.GrowsKeepsDecl | CppCSharpBridge/Parser.cs:797-798 | A declaration already added is unchanged as the table grows |
| Declare.AddScope | CppCSharpBridge/Parser.cs:747-752 | A new scope with that name, parent and source is filed among the parent's children and found there; the table stays well formed |
| Declare.AddDecl | CppCSharpBridge/Parser.cs:681 | A new declaration object is appended; the table stays well formed and grows |
| Declare.SetDecl | CppCSharpBridge/Parser.cs:1328-1430 | A declaration takes its final value at its index; nothing else changes |
| Declare.FileType | CppCSharpBridge/Parser.cs:798 | types.Add files the declaration under its name in the scope; other scopes are unchanged |
| Lexing.SkipBlanks | CppCSharpBridge/Parser.cs:230-240 | The position skipWhitespace stops at lies between the start and the end of the line |
| Lexing.WordEnd | CppCSharpBridge/Parser.cs:163-165 | A word ends between its start and the end of the line |
| Lexing.SkipBlanksSpec | CppCSharpBridge/Parser.cs:230-240 | Only spaces and tabs are skipped, and the stop is at a character that is neither |
| Lexing.WordEndSpec | CppCSharpBridge/Parser.cs:163-165 | A word runs up to the first end character, or to the end of the line |
| Lexing.WordEndIsIndexOfAny | CppCSharpBridge/Parser.cs:163-165 | Where a word ends is what IndexOfAny finds, or the end of the line when it finds nothing |
| Lexing.WordAtSpec | CppCSharpBridge/Parser.cs:154-177 | A word parseWord returns is non-empty, does not start blank and holds no end character |
| Lexing.AfterWord | CppCSharpBridge/Parser.cs:174-175 | Advancing never moves the cursor back, and moves it forward whenever a word was read |
| Lexing.AfterWords | CppCSharpBridge/Parser.cs:154-177 | After reading words until none is left, no word remains at the cursor |
| Lexing.SkipOverSpec | CppCSharpBridge/Parser.cs:254-274 | skipPast(char[]) passes exactly the characters among the values and stops at the first other one |
| Lexing.SkipOver | CppCSharpBridge/Parser.cs:254-274 | skipPast(char[]) stops between the cursor and the end of the line |
| Lexing.Clamp | CppCSharpBridge/Parser.cs:200-207 | The clamped cursor lies within the line, and a position already inside is kept |
| Lexing.WordIsMaximal | CppCSharpBridge/Parser.cs:154-177 | A word is the piece of the line after the blanks, up to an end character or the end of the line |
| Lexing.NoWordAtEndChar | CppCSharpBridge/Parser.cs:166-167 | When the first character after the blanks is an end character, parseWord returns null |
| Lexing.WordsUnfold | CppCSharpBridge/Parser.cs:154-177 | Reading words one by one is reading the first, then the rest |
| Lexing.WordsAreWords | CppCSharpBridge/Parser.cs:154-177 | Every word read in a row is non-empty and free of the end characters |
| Lexing.StatementOfSpec | CppCSharpBridge/Parser.cs:768-776 | A body line is a keyword iff its first word is neither blank, a comment nor a closing bracket; it closes the block iff its first word starts with "}" |
| Syntax.Set | CppCSharpBridge/Parser.cs:504-676 | Setting a type field keeps the kind, name and contexts |
| Syntax.SetAll | CppCSharpBridge/Parser.cs:504-676 | Setting the fields of a keyword keeps the kind, name and contexts |
| Syntax.SetExact | CppCSharpBridge/Parser.cs:504-676 | Setting one field changes that field to the value and no other field |
| Syntax.SetFrame | CppCSharpBridge/Parser.cs:504-676 | Setting one field leaves everything outside the type fields unchanged |
| Syntax.SetAllExact | CppCSharpBridge/Parser.cs:504-676 | A type line sets exactly the fields of its keyword to the value |
| Syntax.SetAllFrame | CppCSharpBridge/Parser.cs:504-676 | A type line leaves everything outside the type fields unchanged |
| Syntax.TypeKeywordFields | CppCSharpBridge/Parser.cs:532-543 | Each type keyword sets one field, except "cspass" and "cpppass", which set the in and out passing fields of their language |
| Syntax.NoRefCount | CppCSharpBridge/Parser.cs:836-844 | "cppnorefcount" sets plain new and delete, makes construction and destruction explicit, and leaves every type field as it was |
| Syntax.Direction | CppCSharpBridge/Parser.cs:1085-1103 | A direction keyword is recognised iff it is "in", "out" or "inout": "in" moves in only, "out" out only, "inout" both |
| Syntax.LangtypeBecomesName | CppCSharpBridge/Parser.cs:1762-1770 | A field holding just "$langtype" becomes the given name |
| Syntax.FinalizeTypeVarAbsent | CppCSharpBridge/Parser.cs:1762-1770 | A field without "$langtype" is left as it is |
| Syntax.FinalizedPassing | CppCSharpBridge/Parser.cs:1373-1390 | A class exposed to the managed side becomes a "class" iff it is polymorphic or has constructors without explicit construction; otherwise it is passed by pointer ("cppName*" out, "IntPtr" in, no out-conversion) |
| Syntax.FinalizedKeepsSetFields | CppCSharpBridge/Parser.cs:1335-1360 | Defaults only fill empty slots: the native and managed types and the in-pass set by the declaration are kept |
| Syntax.FinalizedLifecycle | CppCSharpBridge/Parser.cs:1361-1367 | A construction or destruction spelled out is kept; an empty one gets the reference-counting default built from the generator's options |
| Syntax.FinalizedComplete | CppCSharpBridge/Parser.cs:1328-1429 | After finalizing, the native type and both native passing types are set, and a class implemented on the managed side is a "class" |
| Syntax.FinalizedIdentity | CppCSharpBridge/Parser.cs:1328-1429 | Finalizing keeps the kind, name and contexts of the class |
| Syntax.FinalizedKeepsMembers | CppCSharpBridge/Parser.cs:1328-1429 | Finalizing keeps the base class name, the members and the interface direction |
| Blocks.TypeHeader | CppCSharpBridge/Parser.cs:453-462 | The declaration a type block starts from is a plain type of that name in the current context |
| Blocks.NoClosingEvery | CppCSharpBridge/Parser.cs:465-482 | No line between a block's opening line and a given line closes it, exactly when each of those lines is a skip or keyword line |
| Blocks.ClosedBodyUnique | CppCSharpBridge/Parser.cs:465-482 | A block closes at its first closing line, so where it opens decides where it closes |
| Blocks.TypeBodyGrow | CppCSharpBridge/Parser.cs:465-490 | A type line that does not close the block extends the body read so far by that line |
| Blocks.TypeBodyKeeps | CppCSharpBridge/Parser.cs:465-490 | The type lines of a block never change what the declaration is or where it is filed |
| Blocks.EnumHeader | CppCSharpBridge/Parser.cs:1432-1511 | The declaration an enum block starts from is an enum of that name in the current context |
| Blocks.EnumBodyKeeps | CppCSharpBridge/Parser.cs:1513-1547 | No line of an enum body changes the enum's kind, name, context or base type |
| Blocks.EnumBodyValues | CppCSharpBridge/Parser.cs:1513-1547 | An enum body appends the values of its value lines in order, whatever type lines come between them |
| Blocks.EnumStepKeeps | CppCSharpBridge/Parser.cs:1534-1545 | One enum body line appends its value, if it has one, and keeps the enum's kind, name, context and base type |
| Blocks.EnumBodyGrow | CppCSharpBridge/Parser.cs:1513-1547 | A line that does not close an enum block extends the body read so far by that line |
| Blocks.ClassHeader | CppCSharpBridge/Parser.cs:679-756 | A class starts with its name and base, the "."-qualified name as managed name and the same with "::" as native name, in the current context, with no members |
| Blocks.StructHeader | CppCSharpBridge/Parser.cs:1606-1651 | A struct starts with no base, its qualified names, the current context and no members |
| Blocks.ClassSetting | CppCSharpBridge/Parser.cs:803-849 | An interface, construct, deconstruct, norefcount or nopass line never changes what the class is, where it is filed, or its constructors and methods |
| Blocks.VarLineKeeps | CppCSharpBridge/Parser.cs:856-863 | A var line keeps what the declaration is and its constructors and methods; the cursor ends at or after its line |
| Blocks.TextLineKeeps | CppCSharpBridge/Parser.cs:864-869 | A textbegin line keeps what the declaration is and its constructors and methods; the cursor ends at or after its line |
| Blocks.ClassOptionKeeps | CppCSharpBridge/Parser.cs:803-892 | No class option line changes what the class is or where it is filed; each method lands in the list its name calls for; the cursor ends at or after the line |
| Blocks.StructOptionKeeps | CppCSharpBridge/Parser.cs:1698-1749 | No struct option line changes what the struct is or where it is filed, nor its constructors and methods |
| Blocks.TypeLineKeeps | CppCSharpBridge/Parser.cs:779-783 | A type line in a class or struct body keeps what the declaration is and its constructors and methods |
| Members.ArgTypeAt | CppCSharpBridge/Parser.cs:1075-1112 | An argument type read is non-empty and moves the cursor forward |
| Members.DefaultAt | CppCSharpBridge/Parser.cs:1131-1139 | Reading the optional default never moves the cursor back |
| Members.ArgAt | CppCSharpBridge/Parser.cs:1073-1145 | An argument read moves the cursor forward, so the loop terminates |
| Members.ArgAfterType | CppCSharpBridge/Parser.cs:1114-1145 | The rest of an argument never moves the cursor back |
| Members.ArgListStep | CppCSharpBridge/Parser.cs:1071-1153 | One pass of the loop: a missing argument fails, otherwise it is appended and the list ends at ")" or the end of the line |
| Members.ArgListNonEmpty | CppCSharpBridge/Parser.cs:1071-1153 | The argument loop never yields an empty list |
| Members.NoArguments | CppCSharpBridge/Parser.cs:1062-1068 | The argument list is empty exactly when the parentheses hold nothing or "void" |
| Members.ArgsOfList | CppCSharpBridge/Parser.cs:1062-1071 | When the parentheses hold something other than nothing or "void", the arguments are read by the loop from just past "(" |
| Members.ArgDirection | CppCSharpBridge/Parser.cs:1083-1112 | "in" moves in only, "out" out only, "inout" both; without a direction keyword the argument moves in and its first word is its type |
| Members.ArgDefault | CppCSharpBridge/Parser.cs:1131-1139 | "= literal" after the name is stored as the default value, otherwise it is empty; the type and direction are kept |
| Members.ArgListWellFormed | CppCSharpBridge/Parser.cs:1122-1129 | Every argument read has a type and a name, and the name holds none of its end characters |
| Members.ArgWellFormed | CppCSharpBridge/Parser.cs:1073-1145 | Each argument read has a type and a name, and the name holds none of its end characters |
| Members.FuncOptions | CppCSharpBridge/Parser.cs:907-960 | After the option words a return type is read, and the cursor moves forward |
| Members.FuncHead | CppCSharpBridge/Parser.cs:897-996 | A function head read has a name and a return type |
| Members.FileMethodKeeps | CppCSharpBridge/Parser.cs:1030-1043 | A method named like the class is added to the constructors, any other to the methods, exactly once, and nothing else changes |
| Members.VoidWithoutSpace | CppCSharpBridge/Parser.cs:962-963 | Without a space before "(", the return type is "void" |
| Members.PostfixKeeps | CppCSharpBridge/Parser.cs:1002-1028 | The words after the arguments only ever set isConst |
| Members.PostfixSpec | CppCSharpBridge/Parser.cs:1002-1028 | The postfix is accepted iff every word is "const" or ";"; the method is const iff it was or one word is "const" |
| Members.OptionsAbstractIsVirtual | CppCSharpBridge/Parser.cs:935-940 | "abstract" sets both isVirtual and isAbstract |
| Members.AbstractIsVirtual | CppCSharpBridge/Parser.cs:935-940 | Every method parseFunc reads that is abstract is also virtual |
| Members.PostfixError | CppCSharpBridge/Parser.cs:1019-1023 | A postfix word other than "const" or ";" makes the func line fail |
| Members.VarOptions | CppCSharpBridge/Parser.cs:1162-1191 | After the option words a non-empty type word is read |
| Members.VarHead | CppCSharpBridge/Parser.cs:1158-1217 | Reading a variable's head keeps the cursor within the line |
| Members.AccessorsEnd | CppCSharpBridge/Parser.cs:1226-1250 | The line that ends an accessor block lies at or after the start |
| Members.VarAt | CppCSharpBridge/Parser.cs:1158-1257 | A variable read leaves the cursor on a line at or after its own |
| Members.AccessorsEndSpec | CppCSharpBridge/Parser.cs:1245-1249 | An accessor block ends at its first "}" line; None when there is none |
| Members.VarAtSpec | CppCSharpBridge/Parser.cs:1219-1253 | With a "{" on the next line the bodies are reset and each survivor is the text of a get or set line of the block, which ends at a "}" line; otherwise the cursor steps back and the head is the variable |
| Members.VarOfSpec | CppCSharpBridge/Parser.cs:1177-1217 | "readonly" clears the set body and "writeonly" the get body; a trailing "&" is dropped from the type and the surviving bodies become the address-of and dereference templates |
| Members.VarOptionsType | CppCSharpBridge/Parser.cs:1162-1191 | The type word is one of the line's words and is not an option word |
| Members.AccessorBlockBodies | CppCSharpBridge/Parser.cs:1222-1250 | After the accessor block each body is empty or the text of a get or set line of the block |
| Members.EnumVarSpec | CppCSharpBridge/Parser.cs:1556-1578 | An enum value's name holds none of its end characters, and it has no value unless "=" follows apart |
| Members.BaseList | CppCSharpBridge/Parser.cs:696-712 | A base read is non-empty and the cursor stays within the line |
| Members.Heading | CppCSharpBridge/Parser.cs:683-714 | A heading read has a non-empty name |
| Members.BaseListLast | CppCSharpBridge/Parser.cs:696-712 | The base kept is the last entry of the list: no comma follows it |
| Members.TextEnd | CppCSharpBridge/Parser.cs:1282-1298 | The line ending a text block lies at or after the start |
| Members.TextEndSpec | CppCSharpBridge/Parser.cs:1291-1293 | A text block ends at its first "textend" line; None when there is none |
| Members.TextLinesSplit | CppCSharpBridge/Parser.cs:1295-1297 | A text block is the concatenation of its lines in order |
| Members.TextLinesLength | CppCSharpBridge/Parser.cs:1295-1297 | A text block holds its lines' characters plus one newline per line |
| Finalizing.StructDefaultsNamed | CppCSharpBridge/Parser.cs:1750-1761 | Every "$langtype" placeholder of a struct becomes its native name on the native side and its managed name on the managed side; nothing else changes |
| Finalizing.FinalizedEnum | CppCSharpBridge/Parser.cs:1579-1586 | An enum is named after the declaration that owns its scope, with "." on the managed side and "::" on the native side, and its types are those names |
| Finalizing.PolymorphismSameShape | CppCSharpBridge/Generator.cs:150-179 | Whether a class is polymorphic depends only on the table's shape and the class list, so finalizing other classes first does not change the answer |
| Finalizing.OwnUniqueNameFound | CppCSharpBridge/Generator.cs:150-179 | findIfPolymorphic's lookup by unique name never misses a listed class |
| Finalizing.FinalizedIdempotent | CppCSharpBridge/Parser.cs:1328-1429 | Finalizing a class twice gives the same result as finalizing it once |
| Finalizing.FinalizedSameShape | CppCSharpBridge/Parser.cs:1328-1429 | Finalizing a class keeps the table's shape: scopes, kinds, names, bases and contexts |
| Finalizing.PolymorphicSameShape | CppCSharpBridge/Parser.cs:1372-1376 | finalizeClass's polymorphism decision for a class is the same in any generator of the same shape |
| Finalizing.Owner | CppCSharpBridge/Parser.cs:1579-1586 | The owner of an enum, when there is one, is a class or struct declaration |
| Finalizing.FinalizeClassStep | CppCSharpBridge/Parser.cs:145-152 | Finalizing the next listed class extends the "done" prefix, also when that class was finalized before |
| Finalizing.FinalizeEnumStep | CppCSharpBridge/Parser.cs:139-140 | Finalizing the next enum extends the "done" prefix and keeps every enum's owner |
| Finalizing.EnumsFinalizedNamed | CppCSharpBridge/Parser.cs:139-140 | Once every enum is finalized, each bears its owner's names |
| Parsing.SetOption | CppCSharpBridge/Parser.cs:277-334 | A global option line sets exactly the option its keyword names and leaves the declarations alone |
| Parsing.GenGrowsTransitive | CppCSharpBridge/Parser.cs:56-143 | Growth of the generator across statements composes |
| Parsing.ExtendsTransitive | CppCSharpBridge/Parser.cs:56-143 | Growth of the generator with options set composes |
| Parsing.TopWord | CppCSharpBridge/Parser.cs:74-81 | A top-level statement word is the line's first word in lower case; blank and comment lines have none |
| Parsing.GenValidGrows | CppCSharpBridge/Program.cs:531-568 | A table that only grows keeps the generator's lists well-formed |
| Parsing.SourcesGrow | CppCSharpBridge/Parser.cs:746-756 | Scopes opened by classes and structs keep every scope's source a class or a struct |
| Parsing.SetDeclKeeps | CppCSharpBridge/Parser.cs:793-798 | A declaration taking its final value without changing kind keeps the lists and sources well-formed |
| Parsing.GrowsSetBeyond | CppCSharpBridge/Parser.cs:793-798 | A declaration added after a point can take its final value without disturbing growth from that point |
| Parsing.OpenedGrows | CppCSharpBridge/Parser.cs:746-756 | A scope opened for a declaration stays linked to it as the table grows |
| Parsing.Parser.constructor | CppCSharpBridge/Parser.cs:49 | A parser starts on the given generator in the default context |
| Parsing.Parser.SkipWhitespace | CppCSharpBridge/Parser.cs:230-240 | The cursor moves past the spaces and tabs at it |
| Parsing.Parser.ParseWord | CppCSharpBridge/Parser.cs:154-177 | The word returned is the next word up to an end character; the cursor ends after it or, when not advancing, on it |
| Parsing.Parser.ParseLine | CppCSharpBridge/Parser.cs:178-189 | The rest of the line after the blanks is returned and the cursor ends at the end of the line |
| Parsing.Parser.PeekChars | CppCSharpBridge/Parser.cs:190-199 | The characters at the cursor are returned exactly when they lie within the line |
| Parsing.Parser.SeekLine | CppCSharpBridge/Parser.cs:200-207 | The cursor moves by pos, clamped into the line |
| Parsing.Parser.NextLine | CppCSharpBridge/Parser.cs:208-216 | The line index moves on by one; true exactly when a line is there, which then becomes current from its start |
| Parsing.Parser.PrevLine | CppCSharpBridge/Parser.cs:217-225 | The line index moves back by one; true exactly when a line is there, which then becomes current from its start |
| Parsing.Parser.ResetLine | CppCSharpBridge/Parser.cs:226-229 | The cursor goes back to the start of the line |
| Parsing.Parser.SkipPast | CppCSharpBridge/Parser.cs:241-253 | True exactly when the character occurs at or after the cursor, which then lands just past it; otherwise the cursor stays |
| Parsing.Parser.SkipPastAny | CppCSharpBridge/Parser.cs:254-274 | The cursor moves past every character at it that is one of the values |
| Parsing.Parser.NextStatement | CppCSharpBridge/Parser.cs:466-482 | A block's next line is read and classified as a skip, a closing bracket or a keyword; None past the last line |
| Parsing.Parser.ExpectOpening | CppCSharpBridge/Parser.cs:446-451 | Succeeds exactly when the next line's first word starts with "{"; a line with no word throws |
| Parsing.Parser.ParseTypeLine | CppCSharpBridge/Parser.cs:504-676 | A known type keyword with a value sets that field; an empty value is an error (except cppinclude); any other word is unknown and changes nothing |
| Parsing.Parser.ParseGlobalOption | CppCSharpBridge/Parser.cs:277-334 | Succeeds exactly for an option keyword in any case with a non-empty value, which it sets; otherwise nothing changes |
| Parsing.Parser.FileNewDecl | CppCSharpBridge/Parser.cs:493 | A new declaration is appended and filed under its name in the current context; a taken name throws |
| Parsing.Parser.TypeBodyLine | CppCSharpBridge/Parser.cs:465-490 | One line of a type body is applied as its type line; running out of lines fails |
| Parsing.Parser.ParseTypeBody | CppCSharpBridge/Parser.cs:465-490 | On success the body up to its closing line is read into the declaration as the type lines in order |
| Parsing.Parser.TypeBodyNext | CppCSharpBridge/Parser.cs:465-490 | One turn of the body loop: a closing line ends the block with the body read so far; any other line extends it unless it fails or the input ends |
| Parsing.Parser.ReadTypeBlock | CppCSharpBridge/Parser.cs:446-490 | On success the block after the opening line is read as a whole into the header's declaration |
| Parsing.Parser.ParseType | CppCSharpBridge/Parser.cs:436-497 | A missing name fails; on success the new type is the block's reading, its name was free and is now filed in the current context |
| Parsing.Parser.ParseArgType | CppCSharpBridge/Parser.cs:1075-1112 | Reads an argument's direction and type as the argument-type function says |
| Parsing.Parser.ParseDefault | CppCSharpBridge/Parser.cs:1131-1139 | Reads an argument's optional default as the default function says |
| Parsing.Parser.ParseArg | CppCSharpBridge/Parser.cs:1073-1145 | Reads one argument as the argument function says |
| Parsing.Parser.ParseArgList | CppCSharpBridge/Parser.cs:1071-1153 | Appends exactly the arguments the list function reads, and fails or throws when it does |
| Parsing.Parser.ParseArgs | CppCSharpBridge/Parser.cs:1048-1157 | Appends exactly the arguments of the list, none for "()" or "(void)", and fails or throws when the list does |
| Parsing.Parser.ParseFuncOptions | CppCSharpBridge/Parser.cs:907-960 | Reads the option words and return type as the options function says |
| Parsing.Parser.ParseFuncHead | CppCSharpBridge/Parser.cs:897-996 | Reads a function's head as the head function says |
| Parsing.Parser.ParsePostfix | CppCSharpBridge/Parser.cs:1002-1028 | Applies the words after the argument list as the postfix function says |
| Parsing.Parser.ParseFunc | CppCSharpBridge/Parser.cs:894-1047 | On success the method read is filed by its name; otherwise the declaration is unchanged; each call takes a fresh method id |
| Parsing.Parser.ParseVarHead | CppCSharpBridge/Parser.cs:1158-1217 | Reads a variable's head as the head function says |
| Parsing.Parser.ParseVarName | CppCSharpBridge/Parser.cs:1192-1217 | A trailing "&" is dropped from the type and the variable is named by the word up to ";", as the variable function says |
| Parsing.Parser.ParseAccessors | CppCSharpBridge/Parser.cs:1219-1253 | Succeeds exactly when a "}" line ends the block, and applies its get and set lines; the cursor ends on the "}" line |
| Parsing.Parser.ParseVar | CppCSharpBridge/Parser.cs:1158-1257 | Succeeds exactly when the variable function reads one, which it returns; the cursor ends on the variable's last line |
| Parsing.Parser.ParseInterface | CppCSharpBridge/Parser.cs:1258-1277 | "cpptocs" and "cstocpp" set which side implements the class; any other word fails and changes nothing |
| Parsing.Parser.ParseTextBlock | CppCSharpBridge/Parser.cs:1278-1305 | Succeeds exactly when a "textend" line follows; the lines before it are appended as one text block |
| Parsing.Parser.ParseEnumVar | CppCSharpBridge/Parser.cs:1556-1578 | Appends the value read from the line to the enum |
| Parsing.Parser.EnumBodyLine | CppCSharpBridge/Parser.cs:1516-1545 | One line of an enum body is read and, unless it closes the block, applied as a type line or a value line; running out of lines fails |
| Parsing.Parser.ParseHeading | CppCSharpBridge/Parser.cs:683-714 | Reads a name and base as the heading function says |
| Parsing.Parser.ParseBaseList | CppCSharpBridge/Parser.cs:696-712 | The comma-separated base list is read as the base-list function says: the last entry is kept, and a missing entry fails |
| Parsing.Parser.QualifyName | CppCSharpBridge/Parser.cs:723-744 | The qualified name is each enclosing named scope followed by ".", then the name |
| Parsing.Parser.OpenScope | CppCSharpBridge/Parser.cs:746-756 | A new scope, linked to the new declaration and child of the current one, becomes current |
| Parsing.Parser.SetFinal | CppCSharpBridge/Parser.cs:793-798 | The declaration takes its final value and nothing else changes |
| Parsing.Parser.ListAndFile | CppCSharpBridge/Parser.cs:793-798 | A class or struct is listed last and filed under its name; a taken name throws |
| Parsing.Parser.CloseScope | CppCSharpBridge/Parser.cs:793-798 | The enclosing scope becomes current and the declaration is finalized, listed and filed there; a taken name throws |
| Parsing.Parser.ParseEnumBody | CppCSharpBridge/Parser.cs:1513-1547 | On success the body up to its closing line is read into the enum as the body function says |
| Parsing.Parser.EnumBodyNext | CppCSharpBridge/Parser.cs:1513-1547 | One turn of the body loop: a closing line ends the block with the body read so far; any other line extends it unless it fails or the input ends |
| Parsing.Parser.ReadEnumBlock | CppCSharpBridge/Parser.cs:1501-1547 | On success the enum block is read as a whole into an enum of the given name, base and context |
| Parsing.Parser.FileEnum | CppCSharpBridge/Parser.cs:1549-1551 | The enum is appended, listed last among the enums and filed under its name in the current context; a taken name throws |
| Parsing.Parser.ParseEnum | CppCSharpBridge/Parser.cs:1432-1555 | A missing heading fails; on success the enum read is appended, listed and filed under its free name in the current context |
| Parsing.Parser.ParseClassOption | CppCSharpBridge/Parser.cs:803-869 | Applies a class option line as the class-option function says |
| Parsing.Parser.ParseStructOption | CppCSharpBridge/Parser.cs:1698-1749 | Applies a struct option line as the struct-option function says, never throwing |
| Parsing.Parser.ParseStructLine | CppCSharpBridge/Parser.cs:1698-1749 | A nested enum leaves the struct alone; any other line is its option and leaves the generator alone |
| Parsing.Parser.StructMemberLine | CppCSharpBridge/Parser.cs:1674-1681 | A statement line of a struct body keeps what the struct is and its constructors and methods |
| Parsing.Parser.ParseStructBody | CppCSharpBridge/Parser.cs:1654-1683 | The body keeps the struct's identity, constructors and methods, and on success ends on its closing line |
| Parsing.Parser.FinishBlock | CppCSharpBridge/Parser.cs:1685-1693 | The finished declaration is stored, listed last and filed under its free name in the enclosing scope, which becomes current |
| Parsing.Parser.CloseBlock | CppCSharpBridge/Parser.cs:1685-1693 | The enclosing scope becomes current; on success the name was free there, and the declaration is stored, listed last among its kind and filed there |
| Parsing.Parser.StructBlockBody | CppCSharpBridge/Parser.cs:1654-1693 | On success the body ends on its closing line, and the finalized struct is stored, listed last and filed in the enclosing context, which is current again |
| Parsing.Parser.StructBlock | CppCSharpBridge/Parser.cs:1606-1693 | On success the finalized struct of that name is listed last and filed in the current context, which is current again |
| Parsing.Parser.ParseStruct | CppCSharpBridge/Parser.cs:1589-1697 | A missing name fails and a name already used by a scope throws; on success the finalized struct is listed last and filed under its free name |
| Parsing.Parser.ClassLineKept | CppCSharpBridge/Parser.cs:803-892 | A class line keeps what the class is and files each method by its name |
| Parsing.Parser.ParseClassLine | CppCSharpBridge/Parser.cs:803-892 | Nested blocks leave the class alone; any other line is its option and leaves the generator and context alone |
| Parsing.Parser.ClassMemberLine | CppCSharpBridge/Parser.cs:778-787 | A statement line of a class body keeps what the class is and files each method by its name |
| Parsing.Parser.ParseClassBody | CppCSharpBridge/Parser.cs:758-788 | The body keeps the class's identity and files every method by its name, and on success ends on its closing line |
| Parsing.Parser.ClassBlockBody | CppCSharpBridge/Parser.cs:758-798 | On success the body ends on its closing line, and the class is stored, listed last and filed in the enclosing context, which is current again |
| Parsing.Parser.ClassBlock | CppCSharpBridge/Parser.cs:746-798 | On success the class of that name and base, its methods filed, is listed last and filed in the current context |
| Parsing.Parser.ParseClass | CppCSharpBridge/Parser.cs:679-802 | A missing heading fails and a name already used by a scope throws; on success the class is listed last and filed under its free name with its base and methods filed |
| Parsing.Parser.EnterNamespace | CppCSharpBridge/Parser.cs:354-364 | An existing child scope of that name is reused unchanged; otherwise a new one is added; either becomes current |
| Parsing.Parser.NamespaceLine | CppCSharpBridge/Parser.cs:387-424 | Only the exact words namespace, type, class, struct and enum are accepted; any other fails and changes nothing |
| Parsing.Parser.ParseNamespaceBody | CppCSharpBridge/Parser.cs:366-426 | On success the body ends on its closing line in the namespace's own context |
| Parsing.Parser.NamespaceBlock | CppCSharpBridge/Parser.cs:354-431 | On success the namespace's scope is a child of the current context, its body ends on a closing line, and the context is current again |
| Parsing.Parser.ParseNamespace | CppCSharpBridge/Parser.cs:337-433 | A missing name fails; on success the namespace is a child of the current context, which is current again |
| Parsing.Parser.FinalizeClass | CppCSharpBridge/Parser.cs:1328-1429 | The class takes its finalized value and nothing else changes |
| Parsing.Parser.Finalize | CppCSharpBridge/Parser.cs:145-152 | Every listed class is finalized, every other declaration is unchanged, and the options and lists are kept |
| Parsing.Parser.FinalizeNext | CppCSharpBridge/Parser.cs:147-151 | One turn of finalize's loop: the next listed class joins the finalized ones |
| Parsing.Parser.FinalizeEnum | CppCSharpBridge/Parser.cs:1579-1586 | Succeeds exactly when the enum has an owner, whose names it takes; otherwise it throws and nothing changes |
| Parsing.Parser.FinalizeEnums | CppCSharpBridge/Parser.cs:139-140 | Succeeds exactly when every enum has an owner, and then each enum bears its owner's names |
| Parsing.Parser.FinalizeEnumNext | CppCSharpBridge/Parser.cs:139-140 | One turn of the enum pass: the next enum takes its owner's names, or the pass throws exactly when it has no owner |
| Parsing.Parser.TopStatement | CppCSharpBridge/Parser.cs:81-136 | include throws; a non-keyword word sets the option it names when it has a value and fails otherwise |
| Parsing.Parser.ParseFile | CppCSharpBridge/Parser.cs:56-143 | No lines fail; a leading include throws; on success every line was read, the enums bear their owners' names and the generator only grew |
| Generation.BatchParent | CppCSharpBridge/Generator.cs:284 | The parent sortClasses waits for, when findClass finds one, is a declaration of the table |
| Generation.Pass | CppCSharpBridge/Generator.cs:279-300 | One pass over the pending classes only moves classes from pending to placed, keeping what was placed as a prefix |
| Generation.SortClasses | CppCSharpBridge/Generator.cs:270-317 | The in-place sort agrees with the reference sort: the sorted order on success, the classes it could not place on failure |
| Generation.SortPass | CppCSharpBridge/Generator.cs:277-300 | One pass of the for loop with its removals equals the reference pass, and reports whether it placed a class |
| Generation.PassPlacesHead | CppCSharpBridge/Generator.cs:285-299 | A class whose parent is placed or absent is placed at once |
| Generation.PassSkipsHead | CppCSharpBridge/Generator.cs:285-288 | A class whose parent is not yet placed stays pending, in place |
| Generation.SortStep | CppCSharpBridge/Generator.cs:279-300 | One iteration of the for loop keeps the split between the loop's state and the reference pass |
| Generation.PassSplitStart | CppCSharpBridge/Generator.cs:277-279 | The split holds before a pass starts |
| Generation.PassSplitEnd | CppCSharpBridge/Generator.cs:279-300 | At the end of the for loop the state is the reference pass's result |
| Generation.PlaceReady | CppCSharpBridge/Generator.cs:291-299 | Placing a ready class and removing it keeps the split at the same index |
| Generation.SkipUnready | CppCSharpBridge/Generator.cs:285-288 | Skipping an unready class keeps the split at the next index |
| Generation.PassPermutes | CppCSharpBridge/Generator.cs:279-300 | A pass loses and duplicates no class: placed and pending together are a permutation of before |
| Generation.PassStalls | CppCSharpBridge/Generator.cs:307-311 | A pass that places nothing leaves pending unchanged, and then no pending class is ready |
| Generation.AppendReady | CppCSharpBridge/Generator.cs:291-293 | Appending a ready class keeps every class after its parent |
| Generation.PassKeepsParentFirst | CppCSharpBridge/Generator.cs:279-300 | A pass keeps every placed class after its parent |
| Generation.PassPlacesOrdered | CppCSharpBridge/Generator.cs:279-300 | A pending list already parent-first is placed whole in one pass |
| Generation.SortFromSorted | CppCSharpBridge/Generator.cs:275-316 | A successful sort is a permutation of its input with every class after its parent |
| Generation.SortFromUnsortable | CppCSharpBridge/Generator.cs:303-311 | A failed sort leaves a non-empty part of the input, each of whose classes waits on a parent that is unplaced: left among them or outside the input |
| Generation.SortedIsParentFirstPermutation | CppCSharpBridge/Generator.cs:270-317 | The order sortClasses leaves is a permutation of the batch in which each class comes after the parent findClass finds for it |
| Generation.UnsortableCharacterized | CppCSharpBridge/Generator.cs:303-311 | When sortClasses fails, the classes left are a non-empty part of the batch, and each has a parent that is left too (a cycle) or is not in the batch |
| Generation.ParentFirstUnchanged | CppCSharpBridge/Generator.cs:270-317 | A batch already parent-first is sorted to itself |
| Generation.SortIdempotent | CppCSharpBridge/Generator.cs:270-317 | Sorting a sorted batch again changes nothing |
| Generation.Batch | CppCSharpBridge/Generator.cs:207-213 | Each batch holds only classes exposed to its side |
| Generation.BatchesPartition | CppCSharpBridge/Generator.cs:205-213 | The two batches together hold every class exactly as often as the class list |
| Generation.SplitSnoc | CppCSharpBridge/Generator.cs:207-213 | Filing one more class into one of the batches adds it to their combined multiset |
| Generation.BatchKeepsOrder | CppCSharpBridge/Generator.cs:207-213 | A list of classes all exposed to one side is its own batch |
| Generation.SplitBatches | CppCSharpBridge/Generator.cs:205-213 | The loop splitting the classes yields exactly the two batches, in list order |
| Generation.Generate | CppCSharpBridge/Generator.cs:197-217 | generate's sorting succeeds exactly when both batches sort; then each is parent-first, exposed to its side, and together they are a permutation of the classes |
| Emission.LifecycleSuffixPlain | CppCSharpBridge/Generator.cs:1200-1267 | Constructor and deconstructor extern suffixes hold no "_" |
| Emission.MemberSuffixHasUnderscore | CppCSharpBridge/Generator.cs:1402 | Method and accessor extern suffixes hold a "_" |
| Emission.LifecycleSuffixInjective | CppCSharpBridge/Generator.cs:1200-1267 | Two constructor or deconstructor externs with the same suffix are the same symbol |
| Emission.MemberSuffixInjective | CppCSharpBridge/Generator.cs:1402 | Two method externs with the same suffix clash: same method name and unique index |
| Emission.AccessorSuffixParts | CppCSharpBridge/Generator.cs:1691-1692 | An accessor suffix is the field name followed by "_Get" or "_Set" |
| Emission.SymbolSuffixInjective | CppCSharpBridge/Generator.cs:1200-1817 | Two extern symbols with the same suffix clash |
| Emission.ExternNameInjective | CppCSharpBridge/Generator.cs:1200-1817 | Within one class, two externs with the same name clash |
| Emission.MethodSymbols | CppCSharpBridge/Generator.cs:935-942 | One extern per method |
| Emission.ConstructorSymbolsSpec | CppCSharpBridge/Generator.cs:1078-1247 | Per constructor position, a default extern (unless the class is abstract) and a wrapper extern, none twice |
| Emission.DistinctConcat | CppCSharpBridge/Generator.cs:926-952 | Joining two repetition-free lists with nothing in common has no repetition |
| Emission.AccessorDeclaredIff | CppCSharpBridge/Generator.cs:1791-1817 | A getter or setter extern is declared exactly when some variable of that name has that body |
| Emission.AccessorSymbolsFromFields | CppCSharpBridge/Generator.cs:1791-1817 | Every accessor extern comes from a variable with that body |
| Emission.AccessorSymbolsDistinct | CppCSharpBridge/Generator.cs:1791-1817 | With distinct variable names no accessor extern repeats |
| Emission.MethodSymbolsClashFree | CppCSharpBridge/Program.cs:322-333 | Unique indices keep the method externs of distinct methods from clashing |
| Emission.DistinctIsClashFree | CppCSharpBridge/Generator.cs:926-952 | Symbols that never repeat never clash, outside method symbols |
| Emission.ClashFreeConcat | CppCSharpBridge/Generator.cs:926-952 | Joining two clash-free lists that do not clash with each other is clash-free |
| Emission.LifecycleSymbolsSpec | CppCSharpBridge/Generator.cs:1071-1270 | The constructor section holds only constructor and deconstructor externs, none twice |
| Emission.ClassSymbolsClashFree | CppCSharpBridge/Generator.cs:926-952 | When the class's methods are distinct objects and its variables have distinct names, no two externs of the class clash |
| Emission.ExternNames | CppCSharpBridge/Generator.cs:926-952 | One extern name per symbol |
| Emission.ExternNamesSnoc | CppCSharpBridge/Generator.cs:926-952 | The names of one more symbol are the names so far plus its own |
| Emission.ExternNamesConcat | CppCSharpBridge/Generator.cs:926-952 | The extern names of two symbol lists one after the other are their names one after the other |
| Emission.ExternNamesDistinct | CppCSharpBridge/Generator.cs:926-952 | Symbols that do not clash get pairwise distinct extern names |
| Emission.ClassExternNamesDistinct | CppCSharpBridge/Generator.cs:926-952 | When the class's methods are distinct objects and its variables have distinct names, every extern the class declares has a name no other extern of it has |
| Emission.SameNamedGettersRepeat | CppCSharpBridge/Generator.cs:1691-1692 | Two variables of one name, both with a get body, declare the same getter twice |
| Emission.ClassExternNamesRepeat | CppCSharpBridge/Parser.cs:856-862 | Because a var line is added without a check on its name, two same-named variables with get bodies give the class a repeated extern name, so the distinct-names condition cannot be dropped |
| Emission.ClassLifecycleMembers | CppCSharpBridge/Generator.cs:1991-2054 | A default constructor extern per position of a non-abstract class, a wrapper per position, and a deconstructor exactly when there are constructors and it may be deconstructed |
| Emission.LifecycleMember | CppCSharpBridge/Generator.cs:927-932 | Constructor and deconstructor externs come only from the constructor section |
| Emission.ClassMethodMembers | CppCSharpBridge/Generator.cs:2074-2088 | A method extern with index i is declared exactly for a method of the class whose unique index is i |
| Emission.ClassAccessorMembers | CppCSharpBridge/Generator.cs:945-952 | An accessor extern is declared exactly for a variable with that body |
| Signatures.ResolvedContextInRange | CppCSharpBridge/Generator.cs:63-128 | A type findType returns lies in a context of the table, if any |
| Signatures.ArgTypes | CppCSharpBridge/Generator.cs:1429 | One resolved type per argument, each in a context of the table |
| Signatures.Params | CppCSharpBridge/Generator.cs:1413-1452 | A parameter list has the object slot of a non-static method, one entry per argument, and the result slot of a non-void method |
| Signatures.JoinStep | CppCSharpBridge/Generator.cs:1423-1426 | Writing the ", " spacer before every entry but the first builds the joined list |
| Signatures.PrefixSnoc | CppCSharpBridge/Generator.cs:1421-1442 | Extending the prefix of entries by one entry appends it |
| Signatures.SignatureArity | CppCSharpBridge/Generator.cs:1413-1452 | The managed declaration, the managed call, the native function and the registration cast all have the same number of parameters |
| Signatures.CastMatchesNative | CppCSharpBridge/Generator.cs:2094-2124 | The registration cast names exactly the native function's parameter types, position by position |
| Signatures.ManagedMatchesNative | CppCSharpBridge/Generator.cs:1428-1436 | An argument passed by reference on the managed side ("ref " or "out ", in declaration and call alike) is exactly one passed by pointer on the native side; a result is "out" on the managed side and a pointer on the native side |
| Signatures.ArgumentCrossing | CppCSharpBridge/Generator.cs:1553-1562 | For one argument, the managed declaration and call use the same reference keyword, which is present exactly when the native cast takes a pointer |
| Signatures.PrefixOfConcat | CppCSharpBridge/Generator.cs:3090-3095 | A string is a prefix of itself followed by more |
| Signatures.ExternParameterList | CppCSharpBridge/Generator.cs:1413-1452 | The written declaration parameters are the managed parameter list joined with ", " |
| Signatures.ExternMethodName | CppCSharpBridge/Generator.cs:1402 | The static binding is named by the class name, the method name and its unique index, as the native registration names it |
| Signatures.WriteExternDeclaration | CppCSharpBridge/Generator.cs:1404-1454 | The extern declaration is unsafe when the method is, and lists the managed parameters |
| Signatures.ExternCallList | CppCSharpBridge/Generator.cs:1536-1584 | The written call arguments are the managed call list joined with ", " |
| Signatures.WriteExternCall | CppCSharpBridge/Generator.cs:1530-1590 | The call of the static binding passes the managed call list |
| Signatures.NativeParameterList | CppCSharpBridge/Generator.cs:2796-2829 | The written native parameters are the native list joined with ", " |
| Signatures.WriteNativeHead | CppCSharpBridge/Generator.cs:2787-2832 | The native function is named by the class's unique name and the method name, and lists the native parameters |
| Signatures.CastParameterList | CppCSharpBridge/Generator.cs:2096-2124 | The written cast parameters are the cast list joined with ", " |
| Signatures.WriteMethodCast | CppCSharpBridge/Generator.cs:2094-2134 | The registration target is the native function under the cast of its parameter types |
| Signatures.PtrParamsShape | CppCSharpBridge/Generator.cs:4122-4136 | A thunk takes each argument's boxed out-pass type and, last, the exception out-pointer |
| Signatures.WriteMethodPtr | CppCSharpBridge/Generator.cs:4114-4137 | The function-pointer declaration has the boxed in-pass return type, the name and the thunk's parameter types |
| Signatures.PtrParameterList | CppCSharpBridge/Generator.cs:4122-4136 | The written thunk parameters are the thunk list joined with ", " |
| Signatures.UniqueNames | CppCSharpBridge/Generator.cs:3086 | One unique name per resolved type |
| Signatures.ConvertInBlocks | CppCSharpBridge/Generator.cs:3068-3104 | One conversion block per argument |
| Signatures.WriteConvertIn | CppCSharpBridge/Generator.cs:3065-3105 | The conversion text is the argument blocks in order |
| Signatures.ConvertInText | CppCSharpBridge/Generator.cs:3068-3104 | The loop writes the argument blocks in order |
| Signatures.CallLocalsDeclared | CppCSharpBridge/Generator.cs:3073-3103 | Every arg{i} local the native call passes for an argument with an in-conversion is declared by the conversion |
| Signatures.WriteBackLocalDeclared | CppCSharpBridge/Generator.cs:3073-3103 | For an out argument with an out-conversion, the local arg{i} is declared exactly when the argument is out-only or its type has an in-conversion: an in-out argument of a type with only an out-conversion has no local |
| Binding.ConstructorExterns | CppCSharpBridge/Generator.cs:1078-1247 | The constructor loop declares, per position, the default extern (unless the class is abstract) then the wrapper extern |
| Binding.ConstructorSection | CppCSharpBridge/Generator.cs:1071-1270 | The constructor section declares the constructor externs and then, when the class may be deconstructed, the deconstructor |
| Binding.LifecycleExterns | CppCSharpBridge/Generator.cs:1071-1270 | writeCppWrap_CSharpClassConstructors declares the constructor section's externs, asking classHasDeconstructor |
| Binding.MethodExterns | CppCSharpBridge/Generator.cs:1398-1402 | One extern per method, named by its unique index |
| Binding.VariableExterns | CppCSharpBridge/Generator.cs:1691-1817 | A variable declares a getter extern when it has a get body, then a setter extern when it has a set body |
| Binding.AccessorExterns | CppCSharpBridge/Generator.cs:944-952 | The variables declare their accessor externs in order |
| Binding.ManagedExterns | CppCSharpBridge/Generator.cs:851-952 | The managed class declares the constructor section's externs, then one per method, then the accessors |
| Binding.ManagedExternsDistinct | CppCSharpBridge/Generator.cs:851-952 | No two externs of a managed class share a name, given distinct methods and variable names |
| Binding.BuildClassQualifier | CppCSharpBridge/Generator.cs:1975-1989 | The qualifier loop yields each named enclosing scope with "." after a namespace and "/" after a class or struct, the last separator removed |
| Binding.NamespaceQualifierText | CppCSharpBridge/Generator.cs:1979-1987 | Over namespaces only, the loop writes each name followed by "." |
| Binding.ClassQualifierOfNamespaces | CppCSharpBridge/Generator.cs:1975-1989 | A class directly inside namespaces is registered under the "."-joined namespace path and its name |
| Binding.Registrations | CppCSharpBridge/Generator.cs:1991-2179 | One registration per symbol |
| Binding.RegistrationsConcat | CppCSharpBridge/Generator.cs:1991-2179 | The registrations of two symbol lists one after the other are theirs one after the other |
| Binding.PlainRegistrations | CppCSharpBridge/Generator.cs:1991-2054 | One registration per symbol that is not a method |
| Binding.PlainRegistrationsSnoc | CppCSharpBridge/Generator.cs:2001-2015 | A non-method registration binds the qualified extern name to the unique name followed by the same suffix |
| Binding.PlainRegistrationsConcat | CppCSharpBridge/Generator.cs:1991-2179 | Non-method registrations of two lists one after the other are theirs one after the other |
| Binding.RegisterConstructors | CppCSharpBridge/Generator.cs:1995-2037 | The constructor loop registers, per position, the default constructor (unless the class is abstract) then the wrapper |
| Binding.RegisterMethods | CppCSharpBridge/Generator.cs:2074-2135 | One registration per method, under the extern name with its unique index |
| Binding.RegisterVariable | CppCSharpBridge/Generator.cs:2140-2178 | A variable registers its getter when it has a get body, then its setter when it has a set body |
| Binding.RegisterVariables | CppCSharpBridge/Generator.cs:2137-2179 | The variables register their accessors in order |
| Binding.RegistrationsWithoutMethods | CppCSharpBridge/Generator.cs:1991-2179 | For symbols other than methods, registrations are the plain ones |
| Binding.RegisterConstructorSection | CppCSharpBridge/Generator.cs:1991-2054 | The constructor section registers the constructors and then, when the class may be deconstructed, the deconstructor |
| Binding.RegisterLifecycle | CppCSharpBridge/Generator.cs:1991-2072 | writeCppWrap_CppClass registers the constructor section, asking classHasDeconstructor |
| Binding.RegisterClass | CppCSharpBridge/Generator.cs:1942-2182 | writeCppWrap_CppClass registers exactly the class's registrations in order |
| Binding.RegistrationsBindExterns | CppCSharpBridge/Generator.cs:2001-2177 | The k-th native registration binds the k-th managed extern under the class qualifier; when the class's methods are distinct objects and its variables have distinct names, no managed name is registered twice |
| Binding.ManagedDeclarationKind | CppCSharpBridge/Generator.cs:856-861 | The managed class is declared a struct exactly when it has no constructors or explicit construction and is not polymorphic; otherwise a class |

## Left out

- File and console I/O: `File.ReadAllLines` becomes the `lines` parameter of `ParseFile`, output files and `Console.Write` messages are not modelled, and neither is `Program.Main`.
- The text the emitters write around the modelled names and parameter lists (class bodies, conversions other than the argument in-conversion, helper headers) is not modelled; only what the two halves of a binding must agree on is.
- Mono's run-time behaviour (`mono_add_internal_call`, marshalling) is outside the program and not modelled.
- Parsing.Parser.TopStatement: an `include` line is modelled as `Thrown`, because the source parses the same file again from its first line (Parser.cs:90), which never ends.
- Parsing.Parser.FinalizeEnum: an enum declared in a namespace or at the top level has no owning class or struct, and the source dereferences a null `sourceType`; this is modelled as `Thrown`.
- Resolve.FindIfPolymorphic: the source dereferences null when no class bears the unique name; the model requires one, and Finalizing.OwnUniqueNameFound shows every listed class meets it.
- Resolve.HasVirtualMethodsSpec: the walk up the parents needs a finite chain; the chain queries take the `ChainEnds` precondition (the walk ends within a given number of steps), so a class whose parent chain loops is not covered.
- Resolve.IsFinalMethodSpec: like `Resolve.IsFinalMethod`, it takes the `ChainEnds` precondition, so a class whose parent chain loops is not covered.
- Resolve.IsMethodOverrideSpec: like `Resolve.IsMethodOverride`, it takes the `ChainEnds` precondition, so a class whose parent chain loops is not covered.
- Resolve.ClassHasDeconstructor: takes the `ChainEnds` precondition. On a looping chain that reaches a class with constructors, the source's loop stops and returns false; the model does not cover that input.
- Generation.UnsortableCharacterized: states only what a failure implies. The converse, that a batch with a cycle or an outside parent fails, is not stated as one lemma; Generation.SortedIsParentFirstPermutation shows that a successful sort puts every parent in the batch before its class.
- Text.ToLower: keyword matching uses `String.ToLower`, which depends on the current culture. The model lowercases only the ASCII letters 'A' to 'Z', independent of culture. It therefore differs from the source on a Turkish system, where "INCLUDE" lowercases to "ınclude", and for non-ASCII letters that lowercase to ASCII, such as U+212A KELVIN SIGN.
- Symbols.CloneMethod: the model works on values. That a clone gets its own argument list, so that adding to one list never changes the other, holds trivially here. The aliasing between an original's list and a clone's list is not modelled.
- Emission.ClassExternNamesDistinct: needs distinct variable names, which the parser does not enforce (Parser.cs:856-862). With two `var` lines of one name, the source declares and registers the same accessor extern twice; Emission.ClassExternNamesRepeat shows this. Distinct method objects are also assumed rather than derived from the parser's fresh method ids.
- Parsing.Parser.ParseFile: the first-word test is `IsNullOrEmpty` where the block bodies use `IsNullOrWhiteSpace`; the model follows each as written.
- Parsing.Parser.NamespaceLine: a namespace body matches its keywords case-sensitively, unlike the top level; the model follows the source.
- Parsing.Parser.ParseClass: does not state the class's qualified names, because a type line inside the body (`cppname`, `csname`) may override them; Blocks.ClassHeader states them for the header.
- Parsing.Parser.ParseClassBody: the body of a class or struct is specified line by line (identity kept, methods filed) rather than as one function of the lines, because nested blocks re-enter the parser.
- Parsing.Parser.ParseStructBody: as for classes, the body is specified line by line.
- Signatures.ExternMethodName: the managed extern uses the class's `name`, not its `uniqueName` (Generator.cs:1402); the model follows the code.
- Members.VarHead: after reading the name, the source checks the type word again (Parser.cs:1208) rather than the name, so a var line without a name is read with an empty name; the model follows the source.
- `buildClassNestedString` (Program.cs:119-139) is not used by the modelled code and is not modelled.
- Commented-out code in the source (for example Parser.cs:791 and Generator.cs:904-911) is not modelled.
- The in-out argument whose type has only an out-conversion reads a native local that was never declared; Signatures.WriteBackLocalDeclared states when the local exists, and the generated C++ itself is not modelled further.
