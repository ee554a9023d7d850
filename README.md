# tswink in Dafny

tswink turns the PHP side of a Laravel application into TypeScript. It reads
Eloquent model classes and PHP enums and writes TypeScript classes and enums
from them. Those can carry interfaces for pivot tables and a service object of
exported enum methods. An older, table-driven generator writes one TypeScript
interface per database table.

This project models the expression layer of tswink as Dafny datatypes, classes,
functions and methods, and proves properties of it. That layer covers:

- parsing class and member declarations;
- converting column types;
- rendering imports, members, classes, enums, pivot interfaces and service
  methods;
- indenting text and extracting the text between markers.

The model follows the shape of the PHP code:

- Pure helpers become functions and lemmas.
- Renderers that accumulate text in a loop become methods with `while` loops.
  Each is proved equal to a specification function, and the properties are
  proved about that function.
- Objects whose fields the PHP code updates in place become Dafny classes:
  `ClassExpression`, `EnumExpression`, `PivotExpression`, `GenerationContext`,
  `TypeConverter` and the table-driven `Generator`.

Modules:

| module | models |
|---|---|
| `Wrappers` | `Option` and `Result`. A PHP exception becomes a `Failure` with the exception's message. |
| `Strings` | the PHP built-ins the core uses: `str_repeat`, `explode`/`implode`, `trim`/`ltrim`, `strpos`, `strcmp`, `ucfirst`, `strtolower`, decimal rendering of array keys |
| `OrderedMap` | PHP arrays keyed by string. Writing a key again keeps its position; `usort` renumbers the keys. |
| `Schema` | the column, table, relation and column-type values handed in by Doctrine and Eloquent |
| `StringUtils` | `src/Classes/Utils/StringUtils.php` |
| `Expression`, `ExpressionStringGenerationOptions`, `GenerationContext` | the shared expression base class, the generation options and the generation context |
| `TypeExpression`, `ImportExpression`, `ClassMemberExpression`, `EloquentRelation`, `TypeConverter`, `PivotExpression`, `ServiceMethodExpression`, `ClassExpression`, `EnumExpression` | the class of the same name |
| `TswinkGenerator` | `src/Classes/TswinkGenerator.php` |

Some values come from outside the core and are inputs to the model:

- The results of the regular expressions, given per line or per file as
  `Option` values.
- Reflection: the enum's cases, and each static method with its
  `ExportToTypescript` attributes and the outcome of calling it.
- The Laravel string helpers (`camel_case`, `str_singular`, `kebab_case`) and
  `TypeSimplifier::simplify`, given as function parameters.

## Model

| member | source | states |
|---|---|---|
| StringUtils.Indent | src/Classes/Utils/StringUtils.php:7-20 | the indentation loop computes `IndentText`: lines split at line feeds after `\r` is normalised, each line shifted by the level, and the result trimmed of line feeds |
| StringUtils.IndentZero | src/Classes/Utils/StringUtils.php:10-19 | at level 0 the text comes back with `\r` turned into `\n` and the outer line feeds trimmed |
| StringUtils.IndentPositive | src/Classes/Utils/StringUtils.php:11-13 | at a positive level every line is prefixed with the unit repeated `level` times, and nothing else changes |
| StringUtils.DedentKeepsContent | src/Classes/Utils/StringUtils.php:14-16 | a negative level removes only leading PHP whitespace, at most the unit length times `-level` characters, and keeps the line's content after its leading whitespace |
| StringUtils.IndentThenDedent | src/Classes/Utils/StringUtils.php:7-20 | indenting by one and then dedenting by one gives the level-0 text back |
| StringUtils.IndentCompose | src/Classes/Utils/StringUtils.php:7-20 | indenting by `a` and then by `b` equals indenting by `a + b` |
| StringUtils.TextBetweenAbsent | src/Classes/Utils/StringUtils.php:22-32 | the result is null exactly when the start delimiter does not occur, or the end delimiter does not occur after it |
| StringUtils.TextBetweenFound | src/Classes/Utils/StringUtils.php:22-35 | a result sits right after the first start delimiter and right before an end delimiter, and contains no end delimiter |
| StringUtils.TextBetweenExact | src/Classes/Utils/StringUtils.php:33-34 | the result is exactly the text from the first start delimiter up to the first end delimiter after it |
| StringUtils.BetweenSentinels | src/Classes/Utils/StringUtils.php:22-35 | text placed between two sentinels comes back unchanged when the text itself does not contain the closing sentinel |
| Expression.IndentExpression | src/Classes/Expressions/Expression.php:10-16 | the indentation unit is `indentNumberOfSpaces` spaces when spaces are used, a tab otherwise |
| Expression.UnitHasNoBreak | src/Classes/Expressions/Expression.php:10-16 | the indentation unit never holds a line break |
| Expression.DefaultUnit | src/Classes/Expressions/Expression.php:10-16 | with the default options the unit is four spaces |
| Expression.IndentPrefixesLines | src/Classes/Expressions/Expression.php:18-21 | `indent` at a positive level prefixes each line of the text with the unit repeated `level` times |
| Expression.TwoSpaces | src/Classes/Expressions/Expression.php:18-21 | with two-space options every line gains exactly two spaces |
| Expression.IndentDedent | src/Classes/Expressions/Expression.php:18-21 | `indent(·, -1)` undoes `indent(·, 1)` up to the level-0 normalisation |
| Expression.IndentTwice | src/Classes/Expressions/Expression.php:18-21 | positive indentation levels add up |
| Expression.IndentJoined | src/Classes/Expressions/Expression.php:18-21 | indenting single-line strings joined by line feeds indents each of them |
| ExpressionStringGenerationOptions.Defaults | src/Classes/Expressions/ExpressionStringGenerationOptions.php:7-21 | the default options: four spaces, double quotes, classes rather than interfaces, semicolons, properties forced optional, no separate class for new models |
| ExpressionStringGenerationOptions.Semicolon | src/Classes/Expressions/ServiceMethodExpression.php:109-112 | the statement terminator is `;` exactly when semicolons are used, and empty otherwise |
| GenerationContext.GenerationContext.constructor | src/Classes/Expressions/GenerationContext.php:7-12 | a fresh context: every flag false, no type mappings |
| GenerationContext.GenerationContext.ForRegularModel | src/Classes/Expressions/GenerationContext.php:14-20 | not for a new model; interface mode and optional properties copied from the options; no mappings |
| GenerationContext.GenerationContext.ForNewModel | src/Classes/Expressions/GenerationContext.php:22-29 | for a new model; interface mode copied from the options; properties always optional; no mappings |
| GenerationContext.GenerationContext.WithTypeMapping | src/Classes/Expressions/GenerationContext.php:31-35 | returns the same context with the one mapping added or overwritten; every other mapping and every flag is unchanged |
| GenerationContext.GenerationContext.GetMappedTypeName | src/Classes/Expressions/GenerationContext.php:37-40 | the mapped name when there is one, the original name otherwise |
| GenerationContext.NoMappingIsIdentity | src/Classes/Expressions/GenerationContext.php:37-40 | with no mappings every name maps to itself |
| TypeExpression.ToTypeScript | src/Classes/Expressions/TypeExpression.php:18-24 | the type name, followed by `[]` exactly for a collection: the text starts with the name and what follows it is `[]` for a collection and nothing otherwise |
| TypeExpression.FromTypeScript | src/Classes/Expressions/TypeExpression.php:18-24 | reads a rendered type back: the text is the name plus `[]` exactly when the type is a collection |
| TypeExpression.RoundTrip | src/Classes/Expressions/TypeExpression.php:18-24 | reading back a rendered type gives the type, when its name does not itself end in `[]` |
| TypeExpression.OptionsIrrelevant | src/Classes/Expressions/TypeExpression.php:18-24 | the rendering does not depend on the options |
| TypeExpression.PrimitiveNames | src/Classes/Expressions/TypeExpression.php:13-16 | a type is primitive exactly when it is `string`, `number`, `boolean` or `any`; `Date` is not primitive |
| ImportExpression.NewImport | src/Classes/Expressions/ImportExpression.php:7-13 | a new import is internal by default |
| ImportExpression.Quote | src/Classes/Expressions/ImportExpression.php:21-24 | one quote character: single exactly when single quotes are configured, double otherwise |
| ImportExpression.ToTypeScript | src/Classes/Expressions/ImportExpression.php:15-19 | the import line has the keyword, name, ` from `, and the quoted target, in that order and with those lengths |
| ImportExpression.TypeOnlyInInterfaceMode | src/Classes/Expressions/ImportExpression.php:17 | the line starts with `import type ` exactly in interface mode |
| ImportExpression.QuotesMatch | src/Classes/Expressions/ImportExpression.php:17-18 | the same quote opens and closes the target |
| ImportExpression.InternalIrrelevant | src/Classes/Expressions/ImportExpression.php:13-19 | the `internal` flag does not affect the rendering |
| ImportExpression.TargetBetweenQuotes | src/Classes/Expressions/ImportExpression.php:15-24 | the text between the first pair of quotes is the target |
| ClassMemberExpression.NewMember | src/Classes/Expressions/ClassMemberExpression.php:8-20 | a new member is converted and has no modifiers, no initial value and no type |
| ClassMemberExpression.ToTypeScript | src/Classes/Expressions/ClassMemberExpression.php:52-68 | every member line starts with `public ` |
| ClassMemberExpression.ParseDeclarationOf | src/Classes/Expressions/ClassMemberExpression.php:58-66 | the declaration part `name?: type[ = value]` reads back as its name, type and value |
| ClassMemberExpression.NotStatic | src/Classes/Expressions/ClassMemberExpression.php:55-58 | a declaration that starts with the name cannot be taken for a `static readonly` one |
| ClassMemberExpression.ParseLineText | src/Classes/Expressions/ClassMemberExpression.php:52-68 | a member line reads back as static-or-not, name, type and optional value |
| ClassMemberExpression.ParseRendered | src/Classes/Expressions/ClassMemberExpression.php:52-68 | reading back a rendered member gives its const flag, name, type text and initial value when present |
| ClassMemberExpression.TryParse | src/Classes/Expressions/ClassMemberExpression.php:22-50 | no member exactly when no pattern matches; a `no_convert` member exactly for an assignment that is not a const; a const exactly when the const pattern matches |
| ClassMemberExpression.ConstRendering | src/Classes/Expressions/ClassMemberExpression.php:25-34 | a matched const renders as `public static readonly NAME?: number = digits` |
| ClassMemberExpression.AccessorRendering | src/Classes/Expressions/ClassMemberExpression.php:43-48 | an accessor renders as `public <camelCase(suffix)>?: any` |
| ClassMemberExpression.AssignedValue | src/Classes/Expressions/ClassMemberExpression.php:35-42 | a matched assignment keeps its name and quoted value, without a type |
| EloquentRelation.LastIndexOf | src/Classes/Expressions/EloquentRelation.php:23 | `strrpos`: the last position of the character, or none when the character is absent |
| EloquentRelation.Parse | src/Classes/Expressions/EloquentRelation.php:19-26 | a parsed relation keeps the name and type and has no pivot data yet |
| EloquentRelation.TargetClassName | src/Classes/Expressions/EloquentRelation.php:23 | the target class is the text after the last backslash, or the name without its first character when there is no backslash |
| EloquentRelation.EventTypeExample | src/Classes/Expressions/EloquentRelation.php:19-26 | `App\Models\EventType` gives `EventType` |
| TypeConverter.ConvertType | src/Classes/TypeConverter.php:40-53 | a conversion is always one of `string`, `any`, `number`, `boolean` or `Date` |
| TypeConverter.ConversionTable | src/Classes/TypeConverter.php:44-100 | the full table in both directions: which column types give each TypeScript type, and `Unknown type: <name>` for every other type |
| TypeConverter.CategoriesDisjoint | src/Classes/TypeConverter.php:55-100 | no column type falls into two categories, so the order of the match arms does not matter |
| TypeConverter.TypeConverter.Convert | src/Classes/TypeConverter.php:40-53 | records the converted column's type and gives the table's conversion or its error |
| PivotExpression.FirstNamed | src/Classes/Expressions/PivotExpression.php:66-74 | the first table with the name, if any; none exactly when no table has the name |
| PivotExpression.FindTableByName | src/Classes/Expressions/PivotExpression.php:66-74 | the search loop finds `FirstNamed` |
| PivotExpression.TableNameToInterfaceName | src/Classes/Expressions/PivotExpression.php:79-88 | the loop computes the PascalCase name plus `Pivot` |
| PivotExpression.InterfaceNameShape | src/Classes/Expressions/PivotExpression.php:79-88 | the name ends in `Pivot`; before that it has no underscore and equals the table name without underscores, ignoring case |
| PivotExpression.PascalCaseChars | src/Classes/Expressions/PivotExpression.php:79-88 | PascalCase of underscore-free parts has no underscore |
| PivotExpression.PascalCaseLower | src/Classes/Expressions/PivotExpression.php:79-88 | capitalisation changes only case |
| PivotExpression.TestClassTagExample | src/Classes/Expressions/PivotExpression.php:79-88 | `test_class_tag` gives `TestClassTagPivot` |
| PivotExpression.FirstUnknown | src/Classes/Expressions/PivotExpression.php:48-57 | the position of the first column whose type does not convert, or the number of columns when all convert |
| PivotExpression.FieldLines | src/Classes/Expressions/PivotExpression.php:98-103 | one field line per field |
| PivotExpression.FillFields | src/Classes/Expressions/PivotExpression.php:48-57 | the column loop stops with the converter's error at the first unknown type; otherwise every column becomes a field and the required columns are collected |
| PivotExpression.ConvertColumns | src/Classes/Expressions/PivotExpression.php:48-57 | on local values: the first unconvertible column's message with the converter remembering its type, or every field and required column with the converter remembering the last column's type |
| PivotExpression.FromEloquentRelation | src/Classes/Expressions/PivotExpression.php:31-60 | no pivot without accessor or table; the not-found message when the table is missing; the first conversion error; otherwise a fresh pivot filled from the table's columns |
| PivotExpression.RequiredMembers | src/Classes/Expressions/PivotExpression.php:53-56 | a name is required exactly when some column has it, it is a declared pivot column, and the column is not nullable |
| PivotExpression.FieldsPerColumn | src/Classes/Expressions/PivotExpression.php:48-57 | with distinct column names there is one field per column, in order, carrying the converted type |
| PivotExpression.PivotExpression.constructor | src/Classes/Expressions/PivotExpression.php:13-23 | a new pivot is empty |
| PivotExpression.PivotExpression.ToTypeScript | src/Classes/Expressions/PivotExpression.php:93-107 | the rendering loop computes `PivotText` |
| PivotExpression.PivotTextLines | src/Classes/Expressions/PivotExpression.php:93-107 | the pivot text's lines are the comment, the header, one optional field per entry, and the closing brace |
| PivotExpression.PivotExpression.GetFileName | src/Classes/Expressions/PivotExpression.php:112-115 | the interface name followed by `.ts` |
| PivotExpression.PivotExpression.HasFields | src/Classes/Expressions/PivotExpression.php:120-123 | true exactly when there is at least one field |
| ServiceMethodExpression.FirstInvalid | src/Classes/Expressions/ServiceMethodExpression.php:64-79 | the position of the first element that is not a case of the declaring enum, or the length when there is none |
| ServiceMethodExpression.Converted | src/Classes/Expressions/ServiceMethodExpression.php:40-85 | a thrown call, a non-array result and the first bad element each give their own message; otherwise the result is `Enum.CASE` for every element, in order |
| ServiceMethodExpression.ExecuteMethodAndConvertToTypeScript | src/Classes/Expressions/ServiceMethodExpression.php:40-85 | the validation loop computes `Converted` |
| ServiceMethodExpression.FromMethod | src/Classes/Expressions/ServiceMethodExpression.php:18-35 | nothing without the attribute; the conversion's failure when it fails; otherwise the method, with its export name taken from the attribute or from the method |
| ServiceMethodExpression.FromReflectionMethod | src/Classes/Expressions/ServiceMethodExpression.php:18-35 | computes `FromMethod` |
| ServiceMethodExpression.MethodText | src/Classes/Expressions/ServiceMethodExpression.php:87-95 | the text starts with `name: () => {` and a line feed, and ends with a line feed and `}` |
| ServiceMethodExpression.FormatArrayBody | src/Classes/Expressions/ServiceMethodExpression.php:97-107 | the array loop computes the array literal |
| ServiceMethodExpression.ToTypeScript | src/Classes/Expressions/ServiceMethodExpression.php:87-95 | computes `MethodText` |
| ServiceMethodExpression.ArrayItemsLines | src/Classes/Expressions/ServiceMethodExpression.php:101-103 | the array items are one indented `value,` line per value |
| ServiceMethodExpression.ReturnStatement | src/Classes/Expressions/ServiceMethodExpression.php:90-93 | the return statement is `return [`, the item lines and `]` plus the terminator, joined by line feeds |
| ServiceMethodExpression.IndentedReturn | src/Classes/Expressions/ServiceMethodExpression.php:93 | indenting the return statement indents each of its lines once |
| ServiceMethodExpression.MethodTextJoined | src/Classes/Expressions/ServiceMethodExpression.php:87-95 | the method text is its lines joined by line feeds |
| ServiceMethodExpression.MethodTextLines | src/Classes/Expressions/ServiceMethodExpression.php:87-107 | the lines of the method text are the header, `return [`, each value indented twice with its comma, `]` plus the terminator, and `}` |
| ClassExpression.InsertByName | src/Classes/Expressions/ClassExpression.php:117 | insertion adds exactly the one member |
| ClassExpression.SortByName | src/Classes/Expressions/ClassExpression.php:117 | the sort is a permutation of the members |
| ClassExpression.SortSorted | src/Classes/Expressions/ClassExpression.php:117 | `usort` with `strcmp` by name: the result is sorted by name and is a permutation |
| ClassExpression.SortedUnique | src/Classes/Expressions/ClassExpression.php:117 | with distinct names there is only one sorted permutation, so the order does not depend on how the sort runs |
| ClassExpression.UpperCaseFirst | src/Classes/Expressions/ClassExpression.php:117 | members whose names start with an upper-case letter come before those starting with a lower-case one |
| ClassExpression.CtorLine | src/Classes/Expressions/ClassExpression.php:124-137 | a constructor line exactly for a typed, converted member that is a collection or not primitive; every line starts with the guard `init.<name> = init?.<name> ? `; collections get the `deserialize` line (corrected) |
| ClassExpression.CtorLineAsWritten | src/Classes/Expressions/ClassExpression.php:124-137 | as written: a line exactly for a typed, converted, non-primitive member |
| ClassExpression.ShapesDiffer | src/Classes/Expressions/ClassExpression.php:130-135 | the `new` line and the `deserialize` line never coincide |
| ClassExpression.CollectionLineAsWritten | src/Classes/Expressions/ClassExpression.php:130 | for a collection member the code as written renders a different line than the intended `deserialize` line |
| ClassExpression.NonCollectionLine | src/Classes/Expressions/ClassExpression.php:124-137 | for a member that is not a collection, the code as written and the corrected code agree |
| ClassExpression.CtorLinesMembers | src/Classes/Expressions/ClassExpression.php:127-136 | a line is in the constructor exactly when some member produces it |
| ClassExpression.Kept | src/Classes/Expressions/ClassExpression.php:118-122 | filtering keeps at most the members it was given |
| ClassExpression.KeptMembers | src/Classes/Expressions/ClassExpression.php:118-122 | a member is rendered exactly when it is a member and not `no_convert` |
| ClassExpression.KeptSorted | src/Classes/Expressions/ClassExpression.php:117-122 | the rendered members stay in sorted order |
| ClassExpression.MemberLinesKept | src/Classes/Expressions/ClassExpression.php:118-122 | the member lines are the rendered converted members, each followed by `;`, in order |
| ClassExpression.RelationList | src/Classes/Expressions/ClassExpression.php:81-91 | one parsed relation per model relation |
| ClassExpression.EnumLines | src/Classes/Expressions/ClassExpression.php:93-103 | one enum line per member |
| ClassExpression.ImportLines | src/Classes/Expressions/ClassExpression.php:108-110 | one import line per import |
| ClassExpression.ClassExpression.constructor | src/Classes/Expressions/ClassExpression.php:10-29 | a new class expression is empty |
| ClassExpression.ClassExpression.TryParse | src/Classes/Expressions/ClassExpression.php:31-58 | null exactly when no class declaration is found; otherwise the last namespace, the last declaration with its base class, every member keyed by name with the last one winning, and the model's relations |
| ClassExpression.ClassExpression.ScanLines | src/Classes/Expressions/ClassExpression.php:35-50 | the line loop leaves the last namespace, the last class declaration with its base class, and every member line keyed by name |
| ClassExpression.ClassExpression.ParseEloquentRelations | src/Classes/Expressions/ClassExpression.php:81-91 | the relations parsed and keyed by name, or none when the model has no relations method |
| ClassExpression.ClassExpression.HasMember | src/Classes/Expressions/ClassExpression.php:60-63 | true exactly when some member has that key |
| ClassExpression.ClassExpression.ToTypeScript | src/Classes/Expressions/ClassExpression.php:71-78 | enum text for a class extending `Enum`, class text otherwise; only the member map changes, and only for a class |
| ClassExpression.ClassExpression.ToTypeScriptEnum | src/Classes/Expressions/ClassExpression.php:93-103 | the enum loop computes `EnumText` of the members in map order |
| ClassExpression.ClassExpression.ToTypeScriptClass | src/Classes/Expressions/ClassExpression.php:105-145 | the members are left sorted and renumbered, and the text is `ClassText` of the sorted members; every other field is unchanged |
| ClassExpression.ClassExpression.SortMembers | src/Classes/Expressions/ClassExpression.php:117 | the members end up sorted by name and keyed 0, 1, …; no other field changes |
| ClassExpression.ClassTextBlock | src/Classes/Expressions/ClassExpression.php:111-144 | the rendered import lines followed by the rest of the class text are exactly `ClassText`, whose layout `ClassTextLines` and `DeclarationsRegion` state |
| ClassExpression.ClassBodyBlock | src/Classes/Expressions/ClassExpression.php:115-141 | the class body built statement by statement is exactly `ClassBody`, whose lines `ClassBodyLines` and `PrefaceLines` state |
| ClassExpression.ClassExpression.ImportBlock | src/Classes/Expressions/ClassExpression.php:108-110 | the imports, one line each, in order |
| ClassExpression.MemberBlock | src/Classes/Expressions/ClassExpression.php:118-122 | the member loop computes the member lines |
| ClassExpression.ConstructorBlock | src/Classes/Expressions/ClassExpression.php:125-136 | the constructor loop computes the constructor content |
| ClassExpression.NamespaceOfLastLine | src/Classes/Expressions/ClassExpression.php:37-40 | the namespace is the one on the last line that declares one |
| ClassExpression.NoNamespace | src/Classes/Expressions/ClassExpression.php:37-40 | with no namespace line the namespace is empty |
| ClassExpression.DeclarationOfLastLine | src/Classes/Expressions/ClassExpression.php:41-45 | the name and base class come from the last declaration line |
| ClassExpression.NoDeclaration | src/Classes/Expressions/ClassExpression.php:41-53 | with no declaration line there is no name, so parsing gives null |
| ClassExpression.MemberListOf | src/Classes/Expressions/ClassExpression.php:46-48 | a member is found exactly when some line parses to it |
| ClassExpression.ParsedMemberGet | src/Classes/Expressions/ClassExpression.php:46-48 | the member stored under a name is the last one parsed with that name |
| ClassExpression.ParsedHasMember | src/Classes/Expressions/ClassExpression.php:46-48 | a name is a member exactly when some line parses to a member with that name |
| ClassExpression.ParsedRelationGet | src/Classes/Expressions/ClassExpression.php:81-91 | the relation stored under a name is the last one with that name, and a name is present exactly when some relation has it |
| ClassExpression.RenumberedHasMember | src/Classes/Expressions/ClassExpression.php:117 | after `usort` no member name that is not a number is a key any more |
| ClassExpression.EnumTextLines | src/Classes/Expressions/ClassExpression.php:93-103 | the enum text's lines are the header, one indented `NAME = value,` per member, and the closing brace |
| ClassExpression.ConstructorTrimmed | src/Classes/Expressions/ClassExpression.php:125-137 | the trimmed constructor content is `Object.assign(this, init);` followed by the member lines, joined by line feeds |
| ClassExpression.ConstructorIndented | src/Classes/Expressions/ClassExpression.php:137 | the constructor body is indented one level, line by line |
| ClassExpression.ImportRegionPreserved | src/Classes/Expressions/ClassExpression.php:108-114 | the preserved import text comes back verbatim from between the import sentinels of the rendered class |
| ClassExpression.ClassTextSplit | src/Classes/Expressions/ClassExpression.php:139-143 | the declaration sentinels stand on lines of their own, one unit in, around the preserved declarations dedented and indented again, and the class closes with `}` |
| ClassExpression.DeclarationsRegion | src/Classes/Expressions/ClassExpression.php:139-142 | between the declaration sentinels of the rendered class lie a line feed, the preserved declarations dedented one level and indented again, a line feed and the unit, when nothing above the opening sentinel holds it and the declarations do not hold the closing one |
| ClassExpression.DeclarationsReindented | src/Classes/Expressions/ClassExpression.php:140-142 | declarations whose lines all start with the unit, the first and last with more, are given back by the dedent and the re-indent |
| ClassExpression.DeclarationsKept | src/Classes/Expressions/ClassExpression.php:139-142 | such declarations come back verbatim from between the declaration sentinels |
| ClassExpression.PrefaceLines | src/Classes/Expressions/ClassExpression.php:118-138 | above the sentinels the body's lines are the member lines, a blank line, the constructor header, the constructor lines one unit in, `}` and a blank line |
| ClassExpression.ClassBodyLines | src/Classes/Expressions/ClassExpression.php:137-141 | the body's lines are those above the sentinels, the opening sentinel, the lines of the dedented declarations and the closing sentinel |
| ClassExpression.ClassTextLines | src/Classes/Expressions/ClassExpression.php:107-144 | the class's lines are the import lines, the import sentinels around the preserved import lines, a blank line, the class header, a blank line, every body line one unit in, and `}` |
| EnumExpression.PresentMembers | src/Classes/Expressions/EnumExpression.php:54-55 | a value is kept exactly when it was present |
| EnumExpression.CaseMemberGet | src/Classes/Expressions/EnumExpression.php:52-57 | a case name is a member exactly when some case gives a member with it, and the stored member is the last one |
| EnumExpression.FirstFailingSpec | src/Classes/Expressions/EnumExpression.php:66-71 | every method before the first failing position converts, and the method at it, when there is one, throws |
| EnumExpression.ServiceMethodsOutcome | src/Classes/Expressions/EnumExpression.php:60-72 | collecting the methods fails exactly when some method fails, with the first failure's message; otherwise every method with the attribute is kept, in order |
| EnumExpression.ServiceMethodsMembers | src/Classes/Expressions/EnumExpression.php:66-71 | a service method is collected exactly when some reflected method converts to it |
| EnumExpression.ServiceObject | src/Classes/Expressions/EnumExpression.php:74-91 | the service object is empty exactly when there are no service methods |
| EnumExpression.ServiceObjectEnvelope | src/Classes/Expressions/EnumExpression.php:80-88 | a non-empty service object starts with `export const <Name>Service = {` and a line feed and ends with `\n}\n` |
| EnumExpression.MethodsContentBlock | src/Classes/Expressions/EnumExpression.php:83-85 | the methods content is the method lines, the last line of each method followed by a comma, each line ended by a line feed |
| EnumExpression.ServiceObjectLines | src/Classes/Expressions/EnumExpression.php:80-88 | the service object's lines are the header, each method line indented once, `}` and a final empty line |
| EnumExpression.EnumExpression.constructor | src/Classes/Expressions/EnumExpression.php:11-14 | a new enum expression has an empty class part and no service methods |
| EnumExpression.EnumExpression.TryParse | src/Classes/Expressions/EnumExpression.php:15-40 | nothing when the enum name or the namespace is missing or falsy; the first service-method failure; otherwise an enum named after the match, extending `Enum`, with its cases and its service methods |
| EnumExpression.EnumExpression.ProcessClassMembers | src/Classes/Expressions/EnumExpression.php:42-58 | every present case is put into the members in order, and nothing else changes |
| EnumExpression.EnumExpression.ProcessServiceMethods | src/Classes/Expressions/EnumExpression.php:60-72 | the methods before the first failure are appended, and the failure is reported with its message |
| EnumExpression.EnumExpression.WalkMethods | src/Classes/Expressions/EnumExpression.php:66-71 | the service methods found before the first failing method, in order, and that method's message when there is one |
| EnumExpression.EnumExpression.GenerateServiceObject | src/Classes/Expressions/EnumExpression.php:74-91 | the loop computes `ServiceObject` |
| TswinkGenerator.EscapeName | src/Classes/TswinkGenerator.php:63-69 | a name holding `-` is wrapped in single quotes; any other name is unchanged |
| TswinkGenerator.PropertyName | src/Classes/TswinkGenerator.php:63-69 | reading a key drops the quotes of a quoted key |
| TswinkGenerator.EscapeRoundTrip | src/Classes/TswinkGenerator.php:63-69 | reading the escaped key gives back the column name |
| TswinkGenerator.EscapeNameInjective | src/Classes/TswinkGenerator.php:63-69 | different names give different keys, and a key holds `-` exactly when the name does |
| TswinkGenerator.PropertyLines | src/Classes/TswinkGenerator.php:56-59 | one property line per column |
| TswinkGenerator.ContentUpToLines | src/Classes/TswinkGenerator.php:55-59 | the accumulated text is the header and one property line per column, each followed by a line feed |
| TswinkGenerator.ClassContentLines | src/Classes/TswinkGenerator.php:53-61 | the interface's lines are the header, one tab-indented `name: type;` per column in column order, `}` and a final empty line |
| TswinkGenerator.Generator.constructor | src/Classes/TswinkGenerator.php:23-32 | the generator holds its tables, helpers and destination, and has written nothing |
| TswinkGenerator.Generator.FilesFor | src/Classes/TswinkGenerator.php:34-46 | one file per table |
| TswinkGenerator.Generator.GetClassContent | src/Classes/TswinkGenerator.php:53-61 | the loop computes `ClassContent` for the current table under its singular, capitalised name |
| TswinkGenerator.Generator.Generate | src/Classes/TswinkGenerator.php:34-46 | one file per table, in table order, each at `<destination>/<file stem>.ts` with that table's interface; the last table stays current |

## Left out

- Regular expressions (`preg_match`, `strtok`): the model takes their results
  as inputs. The member, namespace, declaration, enum-name and relation
  patterns are not modelled character by character.
- Reflection (`ReflectionEnum`, `ReflectionMethod`, `getAttributes`,
  `newInstance`, calling the static method): the model takes the reflected
  data as values. `ClassMemberExpression::fromCase` and the `array_diff` with
  the parent enum's cases are inputs: the model receives the cases already
  converted, one `Option` per case.
- Doctrine's schema manager and the `Column`/`Table` classes are plain
  values in the model.
- File I/O (`file_exists`, `mkdir`, `fopen`, `fwrite`): the generator records
  each write as an `OutputFile` in `written`. Reading the destination from the
  configuration in the constructor is replaced by a constructor parameter.
- The Laravel helpers `camel_case`, `str_singular` and `kebab_case`, and
  `TypeSimplifier::simplify`, are function parameters, so the model proves
  nothing about their results.
- PHP `null` in string fields (such as an unset namespace) is modelled as
  the empty string. A loose `initial_value != null` is modelled as "present
  and not empty".
- Exceptions are modelled as `Failure` results carrying the message; the
  exception chaining (`previous`) is not modelled.
- EnumExpression.EnumExpression.TryParse: on a failure the model returns only
  the message. It does not model the partly built enum that PHP leaves in the
  by-reference variable before the exception escapes.
- `getModelRelations` is an input, queried once per class.
- The `GenerationContext` argument that `ServiceMethodExpression::toTypeScript`
  accepts and never reads is not a parameter of the model.
- The files come from different versions of the code. `ClassExpression`
  stores the base class as `base_class_name` while `EnumExpression` writes
  `baseClassName`. `TypeExpression` has `isCollection` while
  `ClassExpression` reads `is_collection`. `PivotExpression` reads pivot
  fields that `EloquentRelation` never declares. The model keeps one field
  per concept: `baseClassName`, `isCollection`, and the pivot fields on
  `Relation`, which `Parse` leaves empty. The `is_collection` read is listed
  under Findings. `EnumExpression` calls `fullyQualifiedClassName`
  (EnumExpression.php lines 45 and 63), which `ClassExpression` does not
  define; it has `instantiate` (lines 65-69) instead. The model takes the
  class name and the reflected data as inputs, so neither is modelled.
- The snapshot tests for the newer class renderer (interfaces, separate
  classes for new models, per-relation pivot properties) belong to a renderer
  that is not part of these files. They are not modelled.
- ClassExpression.ClassExpression.ToTypeScriptClass: `tryParse` never
  assigns `non_auto_generated_class_declarations`, so in PHP it stays `null`
  and `indent(string ...)` throws a `TypeError` on it. The model renders the
  field as the empty string, like every other `null` string field.
- PivotExpression.RequiredPart: compares column names with exact equality.
  PHP's loose `in_array` (PivotExpression.php line 53) treats two numeric
  strings such as `"1"` and `"01"` as equal; the model does not.
- Expression.IndentExpression: `indentNumberOfSpaces` is a `nat` in
  `ExpressionStringGenerationOptions.Options`, so the model cannot express a
  negative count, for which PHP's `str_repeat` throws a `ValueError`
  (Expression.php line 13). PHP documents the option as an `int`
  (ExpressionStringGenerationOptions.php lines 9-10), and the command reads it
  from the configuration (TswinkGenerateCommand.php line 70).
- `GenerationContext.GenerationContext.IsForNewModel` returns the field and
  carries no contract of its own.
- `PivotExpression::getRequiredColumns` returns the field that `FillFields`
  fills. Its contents are stated by PivotExpression.RequiredMembers.

## Findings

| source | as written | input that shows it | evidently intended | confidence | as-written member | corrected member |
|---|---|---|---|---|---|---|
| src/Classes/Expressions/ClassExpression.php:130 | the constructor reads `$member->type->is_collection`, a property `TypeExpression` does not declare, so the collection branch is never taken | a member `introductions` typed `Introduction[]` gets `new Introduction(init.introductions)` instead of a deserialize line | collections deserialize with `Object.deserialize`, as in tests/Output/Classes/TestClass.ts:40 | not executed | ClassExpression.CollectionLineAsWritten | ClassExpression.CtorLine |
