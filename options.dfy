/** `ExpressionStringGenerationOptions`: the switches every renderer reads. */
module ExpressionStringGenerationOptions {

  datatype Options = Options(
    indentUseSpaces: bool,
    indentNumberOfSpaces: nat,
    useSingleQuotesForImports: bool,
    useInterfaceInsteadOfClass: bool,
    useSemicolon: bool,
    forcePropertiesOptional: bool,
    createSeparateClassForNewModels: bool)

  /** The field initialisers of a freshly constructed options object. */
  function Defaults(): (o: Options)
    ensures o.indentUseSpaces && o.indentNumberOfSpaces == 4
    ensures !o.useSingleQuotesForImports && !o.useInterfaceInsteadOfClass
    ensures o.useSemicolon && o.forcePropertiesOptional
    ensures !o.createSeparateClassForNewModels
  {
    Options(true, 4, false, false, true, true, false)
  }

  /** The statement terminator the renderers append. */
  function Semicolon(options: Options): (s: string)
    ensures s == ";" <==> options.useSemicolon
    ensures s == "" <==> !options.useSemicolon
  {
    if options.useSemicolon then ";" else ""
  }
}
