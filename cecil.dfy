/**
 * The part of the Mono.Cecil object graph the post-processor touches.
 *
 * An assembly is a list of modules, a module a list of top-level types, a type
 * a list of methods (plus nested types, which the weaver never visits), and a
 * method has an instruction list and a custom-attribute list. Only methods are
 * updated in place, so only methods (and instructions, whose identity the IL
 * processor relies on) are objects; the containers are values that hold them.
 */
module Cecil {
  import opened Collections

  /** A reference to a method, as ModuleDefinition.Import returns it; opaque to the weaver. */
  datatype MethodReference = MethodReference(declaringType: string, name: string, parameterTypes: seq<string>, scope: string)

  /** The two opcodes the weaver emits; every other opcode is carried unexamined. */
  datatype OpCode = Ldstr | Call | OtherOpCode(code: nat)

  datatype Operand =
    | NoOperand
    | StringOperand(value: string)
    | MethodOperand(target: MethodReference)
    | OtherOperand(literal: int)

  /**
   * An IL instruction. Instructions are compared by identity: two `ret`s in one
   * body are different instructions, and ILProcessor finds an anchor by reference.
   */
  class Instruction {
    const opCode: OpCode
    const operand: Operand

    /** Instruction.Create: a new instruction, distinct from every existing one. */
    constructor Create(opCode: OpCode, operand: Operand)
      ensures this.opCode == opCode && this.operand == operand
    {
      this.opCode := opCode;
      this.operand := operand;
    }
  }

  /** A type reference; `scope` is the module or assembly that defines the type. */
  datatype TypeReference = TypeReference(scope: string, namespace: string, name: string) {
    /** TypeReference.FullName for a non-nested type: "Namespace.Name", or "Name" in the global namespace. */
    function FullName(): string {
      if namespace == "" then name else namespace + "." + name
    }
  }

  datatype CustomAttribute = CustomAttribute(attributeType: TypeReference, constructorArguments: seq<string>)

  /** The mutable part of a method: its body's instruction list and its custom attributes. */
  datatype MethodState = MethodState(instructions: seq<Instruction>, customAttributes: seq<CustomAttribute>)

  /**
   * A method definition. `hasBody` is false for abstract and extern methods,
   * whose Body is null; `instructions` is then empty and never read.
   */
  class MethodDefinition {
    const name: string
    const hasBody: bool
    var instructions: seq<Instruction>
    var customAttributes: seq<CustomAttribute>

    constructor (name: string, hasBody: bool, instructions: seq<Instruction>, customAttributes: seq<CustomAttribute>)
      ensures this.name == name && this.hasBody == hasBody
      ensures this.instructions == instructions && this.customAttributes == customAttributes
    {
      this.name := name;
      this.hasBody := hasBody;
      this.instructions := instructions;
      this.customAttributes := customAttributes;
    }

    function State(): MethodState
      reads this
    {
      MethodState(instructions, customAttributes)
    }

    /** ILProcessor.InsertBefore: inserts `instruction` at the position where `target` is first found. */
    method InsertBefore(target: Instruction, instruction: Instruction)
      requires target in instructions
      modifies this
      ensures instructions == InsertedBefore(old(instructions), target, instruction)
      ensures customAttributes == old(customAttributes)
    {
      instructions := InsertedBefore(instructions, target, instruction);
    }

    /** CustomAttributes.Remove: removes the first equal attribute and says whether there was one. */
    method RemoveCustomAttribute(attribute: CustomAttribute) returns (removed: bool)
      modifies this
      ensures removed == (attribute in old(customAttributes))
      ensures customAttributes == Remove(old(customAttributes), attribute)
      ensures instructions == old(instructions)
    {
      removed := attribute in customAttributes;
      customAttributes := Remove(customAttributes, attribute);
    }
  }

  datatype TypeDefinition = TypeDefinition(fullName: string, methods: seq<MethodDefinition>, nestedTypes: seq<TypeDefinition>)

  datatype ModuleDefinition = ModuleDefinition(name: string, types: seq<TypeDefinition>)

  datatype AssemblyDefinition = AssemblyDefinition(name: string, modules: seq<ModuleDefinition>)
}
