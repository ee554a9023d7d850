/** `GenerationContext`: the flags of one rendering pass, and the table that
    renames referenced types when a "new model" variant is generated. */
module GenerationContext {
  import opened ExpressionStringGenerationOptions

  class GenerationContext {
    var isForNewModel: bool
    var useInterfaceInsteadOfClass: bool
    var forcePropertiesOptional: bool
    /** Original type name to new model name. */
    var typeNameMappings: map<string, string>

    /** The field initialisers: every flag off, no mapping. */
    constructor ()
      ensures !isForNewModel && !useInterfaceInsteadOfClass && !forcePropertiesOptional
      ensures typeNameMappings == map[]
    {
      isForNewModel := false;
      useInterfaceInsteadOfClass := false;
      forcePropertiesOptional := false;
      typeNameMappings := map[];
    }

    /** A context for the regular model: the options' interface and
        force-optional flags, not a new model, no mapping. */
    static method ForRegularModel(options: Options) returns (context: GenerationContext)
      ensures fresh(context)
      ensures !context.isForNewModel
      ensures context.useInterfaceInsteadOfClass == options.useInterfaceInsteadOfClass
      ensures context.forcePropertiesOptional == options.forcePropertiesOptional
      ensures context.typeNameMappings == map[]
    {
      context := new GenerationContext();
      context.useInterfaceInsteadOfClass := options.useInterfaceInsteadOfClass;
      context.forcePropertiesOptional := options.forcePropertiesOptional;
    }

    /** A context for the new-model variant: properties are optional whatever
        the options say. */
    static method ForNewModel(options: Options) returns (context: GenerationContext)
      ensures fresh(context)
      ensures context.isForNewModel
      ensures context.useInterfaceInsteadOfClass == options.useInterfaceInsteadOfClass
      ensures context.forcePropertiesOptional
      ensures context.typeNameMappings == map[]
    {
      context := new GenerationContext();
      context.isForNewModel := true;
      context.useInterfaceInsteadOfClass := options.useInterfaceInsteadOfClass;
      context.forcePropertiesOptional := true;
    }

    /** Registers (or overwrites) the mapping of `originalType` and returns
        the same object, so that calls can be chained. */
    method WithTypeMapping(originalType: string, newType: string) returns (self: GenerationContext)
      modifies this
      ensures self == this
      ensures typeNameMappings == old(typeNameMappings)[originalType := newType]
      ensures isForNewModel == old(isForNewModel)
      ensures useInterfaceInsteadOfClass == old(useInterfaceInsteadOfClass)
      ensures forcePropertiesOptional == old(forcePropertiesOptional)
      ensures GetMappedTypeName(originalType) == newType
      ensures forall n :: n != originalType ==> GetMappedTypeName(n) == old(GetMappedTypeName(n))
    {
      typeNameMappings := typeNameMappings[originalType := newType];
      self := this;
    }

    /** The registered new name, or the name itself when none is registered. */
    function GetMappedTypeName(originalName: string): (r: string)
      reads this
      ensures originalName in typeNameMappings ==> r == typeNameMappings[originalName]
      ensures originalName !in typeNameMappings ==> r == originalName
    {
      if originalName in typeNameMappings then typeNameMappings[originalName] else originalName
    }

    function IsForNewModel(): bool
      reads this
    {
      isForNewModel
    }
  }

  /** A context without mappings renames nothing. */
  lemma NoMappingIsIdentity(context: GenerationContext, name: string)
    requires context.typeNameMappings == map[]
    ensures context.GetMappedTypeName(name) == name
  {
  }
}
