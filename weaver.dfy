/**
 * AssemblyPostProcessor.ProcessAssembly: for every method of every top-level
 * type of every module that carries a custom attribute whose type's FullName is
 * exactly "LogAttribute", insert `ldstr "Enter T.M"; call Debug.Log` before the
 * first instruction and `ldstr "Exit T.M"; call Debug.Log` before the last one,
 * then remove that attribute. The result says whether any method was woven.
 *
 * A marked method that has no body (abstract or extern) makes the C# code
 * dereference a null Body; a marked method with an empty body makes it index
 * Instructions[0]. Both throw, which is modelled by the `Threw` outcome.
 */
module Weaver {
  import opened Options
  import opened Collections
  import opened Cecil

  const LogAttributeName := "LogAttribute"

  datatype Exception = NullReferenceException | ArgumentOutOfRangeException

  /** How a call of the weaver ends: it returns `wasProcessed`, or it throws. */
  datatype Outcome = Returned(wasProcessed: bool) | Threw(exception: Exception)

  /**
   * The marker test: the attribute type is LogAttribute in the global
   * namespace. LogAttributeFullName shows this is the literal comparison of the
   * type's FullName with "LogAttribute".
   */
  predicate IsLogAttribute(a: CustomAttribute)
  {
    a.attributeType.namespace == "" && a.attributeType.name == LogAttributeName
  }

  /**
   * Comparing FullName with "LogAttribute" accepts exactly the global-namespace
   * LogAttribute: a namespaced type's FullName holds a '.', which the literal does not.
   */
  lemma LogAttributeFullName(a: CustomAttribute)
    ensures IsLogAttribute(a) <==> a.attributeType.FullName() == LogAttributeName
  {
    var t := a.attributeType;
    if t.namespace != "" {
      assert t.FullName()[|t.namespace|] == '.';
    }
  }

  /** The position of the first marker among `attributes`, if there is one. */
  function FindLogAttribute(attributes: seq<CustomAttribute>): (r: Option<nat>)
    ensures r.Some? ==> r.value < |attributes|
  {
    if |attributes| == 0 then None
    else if IsLogAttribute(attributes[0]) then Some(0)
    else match FindLogAttribute(attributes[1..])
      case None => None
      case Some(k) => Some(k + 1)
  }

  /** FindLogAttribute finds the first marker, and finds none exactly when there is none. */
  lemma {:induction false} FindLogAttributeFirst(attributes: seq<CustomAttribute>)
    ensures FindLogAttribute(attributes).Some? ==>
      var k := FindLogAttribute(attributes).value;
      && k < |attributes| && IsLogAttribute(attributes[k])
      && forall j | 0 <= j < k :: !IsLogAttribute(attributes[j])
    ensures FindLogAttribute(attributes).None? <==> forall j | 0 <= j < |attributes| :: !IsLogAttribute(attributes[j])
  {
    if |attributes| > 0 && !IsLogAttribute(attributes[0]) {
      var rest := attributes[1..];
      FindLogAttributeFirst(rest);
      assert forall j | 1 <= j < |attributes| :: attributes[j] == rest[j - 1];
    }
  }

  /** How many markers `attributes` holds. */
  function LogAttributeCount(attributes: seq<CustomAttribute>): nat
  {
    if |attributes| == 0 then 0
    else (if IsLogAttribute(attributes[0]) then 1 else 0) + LogAttributeCount(attributes[1..])
  }

  function EnterMessage(typeFullName: string, methodName: string): string
  {
    "Enter " + typeFullName + "." + methodName
  }

  function ExitMessage(typeFullName: string, methodName: string): string
  {
    "Exit " + typeFullName + "." + methodName
  }

  /** The reference moduleDefinition.Import(typeof(Debug).GetMethod("Log", { typeof(object) })) yields. */
  function ImportLogMethod(md: ModuleDefinition): MethodReference
  {
    MethodReference("UnityEngine.Debug", "Log", ["System.Object"], md.name)
  }

  predicate IsLdstr(i: Instruction, literal: string)
  {
    i.opCode == Ldstr && i.operand == StringOperand(literal)
  }

  predicate IsCallTo(i: Instruction, log: MethodReference)
  {
    i.opCode == Call && i.operand == MethodOperand(log)
  }

  /** Where the IL processor finds the body's last instruction: its first occurrence. */
  function ExitAnchor(body: seq<Instruction>): nat
    requires |body| > 0
  {
    IndexOf(body, body[|body| - 1])
  }

  /**
   * `after` is `before` with the Enter pair in front of its first instruction
   * and the Exit pair in front of (the first occurrence of) its last one.
   */
  predicate IsWovenBody(before: seq<Instruction>, after: seq<Instruction>, enter: string, exit: string, log: MethodReference)
    requires |before| > 0
  {
    var j := ExitAnchor(before);
    && |after| == |before| + 4
    && IsLdstr(after[0], enter) && IsCallTo(after[1], log)
    && after[2..j + 2] == before[..j]
    && IsLdstr(after[j + 2], exit) && IsCallTo(after[j + 3], log)
    && after[j + 4..] == before[j..]
  }

  /** The method carries a marker. */
  predicate Marked(s: MethodState)
  {
    FindLogAttribute(s.customAttributes).Some?
  }

  /** Weaving this method throws: it is marked but has no body or an empty one. */
  predicate Fails(hasBody: bool, s: MethodState)
  {
    Marked(s) && (!hasBody || |s.instructions| == 0)
  }

  /** A method as the weaver visits it: with its type's full name and its module's imported Log reference. */
  datatype Site = Site(methodDefinition: MethodDefinition, typeFullName: string, log: MethodReference)

  function EnterMessageAt(site: Site): string
  {
    EnterMessage(site.typeFullName, site.methodDefinition.name)
  }

  function ExitMessageAt(site: Site): string
  {
    ExitMessage(site.typeFullName, site.methodDefinition.name)
  }

  /**
   * The effect of weaving `site` from state `s0` to state `s1` when it does not
   * throw: an unmarked method is left as it is; a marked one gets the woven body
   * and loses its first marker only.
   */
  predicate Woven(site: Site, s0: MethodState, s1: MethodState)
  {
    match FindLogAttribute(s0.customAttributes)
    case None => s1 == s0
    case Some(k) =>
      && site.methodDefinition.hasBody && |s0.instructions| > 0
      && s1.customAttributes == RemoveAt(s0.customAttributes, k)
      && IsWovenBody(s0.instructions, s1.instructions, EnterMessageAt(site), ExitMessageAt(site), site.log)
  }

  /** A marker with none before it is the one FindLogAttribute finds. */
  lemma {:induction false} FirstMarkerAt(attributes: seq<CustomAttribute>, i: nat)
    requires i < |attributes| && IsLogAttribute(attributes[i])
    requires forall k | 0 <= k < i :: !IsLogAttribute(attributes[k])
    ensures FindLogAttribute(attributes) == Some(i)
  {
    FindLogAttributeFirst(attributes);
  }

  /** Without a marker, FindLogAttribute finds none. */
  lemma {:induction false} NoMarker(attributes: seq<CustomAttribute>)
    requires forall k | 0 <= k < |attributes| :: !IsLogAttribute(attributes[k])
    ensures FindLogAttribute(attributes) == None
  {
    FindLogAttributeFirst(attributes);
  }

  /** Removing the first marker by value removes exactly the marker at its position. */
  lemma RemoveFirstMarker(attributes: seq<CustomAttribute>, k: nat)
    requires FindLogAttribute(attributes) == Some(k)
    ensures Remove(attributes, attributes[k]) == RemoveAt(attributes, k)
  {
    FindLogAttributeFirst(attributes);
    var r := IndexOf(attributes, attributes[k]);
    IndexOfFirst(attributes, attributes[k]);
    assert r == k;
  }

  /** The woven body and the first marker removed by value make a woven method. */
  lemma WovenAt(site: Site, s0: MethodState, s1: MethodState, i: nat)
    requires FindLogAttribute(s0.customAttributes) == Some(i)
    requires site.methodDefinition.hasBody && |s0.instructions| > 0
    requires s1.customAttributes == Remove(s0.customAttributes, s0.customAttributes[i])
    requires IsWovenBody(s0.instructions, s1.instructions, EnterMessageAt(site), ExitMessageAt(site), site.log)
    ensures Woven(site, s0, s1)
  {
    RemoveFirstMarker(s0.customAttributes, i);
  }

  /**
   * The closed form of the two insertion pairs: `entered` is the body with the
   * Enter pair in front, and `woven` has the Exit pair in front of the first
   * occurrence of the last instruction in `entered`.
   */
  lemma WovenBodyFromPairs(body: seq<Instruction>, entered: seq<Instruction>, woven: seq<Instruction>,
                           enter: Instruction, callEnter: Instruction, exit: Instruction, callExit: Instruction,
                           enterText: string, exitText: string, log: MethodReference)
    requires |body| > 0
    requires enter != body[|body| - 1] && callEnter != body[|body| - 1]
    requires IsLdstr(enter, enterText) && IsCallTo(callEnter, log) && IsLdstr(exit, exitText) && IsCallTo(callExit, log)
    requires entered == [enter, callEnter] + body
    requires woven == entered[..IndexOf(entered, body[|body| - 1])] + [exit, callExit]
                      + entered[IndexOf(entered, body[|body| - 1])..]
    ensures IsWovenBody(body, woven, enterText, exitText, log)
  {
    var j := ExitAnchor(body);
    IndexOfPastPrefix([enter, callEnter], body, body[|body| - 1]);
    assert entered[..j + 2] == [enter, callEnter] + body[..j];
    assert entered[j + 2..] == body[j..];
  }

  /**
   * Lines 132-138 of the weaver: the Enter pair goes in before the first
   * instruction; the last instruction is read afresh and the Exit pair goes in
   * before it. Each InsertBefore locates its anchor by identity.
   */
  method WeaveBody(m: MethodDefinition, typeFullName: string, logMethodReference: MethodReference)
    requires m.hasBody && |m.instructions| > 0
    modifies m
    ensures m.customAttributes == old(m.customAttributes)
    ensures IsWovenBody(old(m.instructions), m.instructions,
                        EnterMessage(typeFullName, m.name), ExitMessage(typeFullName, m.name), logMethodReference)
  {
    ghost var body := m.instructions;
    var first := m.instructions[0];
    var enter := new Instruction.Create(Ldstr, StringOperand(EnterMessage(typeFullName, m.name)));
    m.InsertBefore(first, enter);
    var callEnter := new Instruction.Create(Call, MethodOperand(logMethodReference));
    m.InsertBefore(first, callEnter);
    InsertPairBefore(body, first, enter, callEnter);
    assert IndexOf(body, first) == 0;
    assert m.instructions == [enter, callEnter] + body;
    ghost var entered := m.instructions;

    var last := m.instructions[|m.instructions| - 1];
    assert last == body[|body| - 1];
    var exit := new Instruction.Create(Ldstr, StringOperand(ExitMessage(typeFullName, m.name)));
    m.InsertBefore(last, exit);
    var callExit := new Instruction.Create(Call, MethodOperand(logMethodReference));
    m.InsertBefore(last, callExit);
    InsertPairBefore(entered, last, exit, callExit);
    WovenBodyFromPairs(body, entered, m.instructions, enter, callEnter, exit, callExit,
                       EnterMessage(typeFullName, m.name), ExitMessage(typeFullName, m.name), logMethodReference);
  }

  /** What weaving a marked method that cannot be woven throws: no body, or no first instruction. */
  function ExceptionFor(hasBody: bool): Exception
  {
    if hasBody then ArgumentOutOfRangeException else NullReferenceException
  }

  /**
   * The inner foreach of ProcessAssembly for one method: find the first marker,
   * weave the body, stop at that marker, then remove it.
   */
  method ProcessMethod(md: ModuleDefinition, typeFullName: string, m: MethodDefinition) returns (outcome: Outcome)
    modifies m
    ensures outcome.Threw? <==> Fails(m.hasBody, old(m.State()))
    ensures outcome.Threw? ==>
      && m.State() == old(m.State())
      && outcome.exception == ExceptionFor(m.hasBody)
    ensures outcome.Returned? ==>
      && outcome.wasProcessed == Marked(old(m.State()))
      && Woven(Site(m, typeFullName, ImportLogMethod(md)), old(m.State()), m.State())
  {
    var logAttribute: Option<CustomAttribute> := None;
    var attributes := m.customAttributes;
    var i := 0;
    while i < |attributes|
      invariant 0 <= i <= |attributes|
      invariant m.State() == old(m.State())
      invariant forall k | 0 <= k < i :: !IsLogAttribute(attributes[k])
    {
      var customAttribute := attributes[i];
      if IsLogAttribute(customAttribute) {
        FirstMarkerAt(attributes, i);
        var logMethodReference := ImportLogMethod(md);
        if !m.hasBody {
          return Threw(NullReferenceException);
        }
        if |m.instructions| == 0 {
          return Threw(ArgumentOutOfRangeException);
        }
        WeaveBody(m, typeFullName, logMethodReference);
        logAttribute := Some(customAttribute);
        break;
      }
      i := i + 1;
    }

    // Remove the marker so that the method is not woven again
    if logAttribute.Some? {
      var removed := m.RemoveCustomAttribute(logAttribute.value);
      WovenAt(Site(m, typeFullName, ImportLogMethod(md)), old(m.State()), m.State(), i);
    } else {
      NoMarker(attributes);
    }
    outcome := Returned(logAttribute.Some?);
  }

  // ---------------------------------------------------------------------------
  // What one weave promises.

  /** A method is marked exactly when it holds at least one marker. */
  lemma {:induction false} MarkedIffCount(attributes: seq<CustomAttribute>)
    ensures FindLogAttribute(attributes).None? <==> LogAttributeCount(attributes) == 0
  {
    if |attributes| > 0 && !IsLogAttribute(attributes[0]) {
      MarkedIffCount(attributes[1..]);
    }
  }

  /** Removing the first marker leaves one marker fewer. */
  lemma {:induction false} RemoveMarkerCount(attributes: seq<CustomAttribute>, k: nat)
    requires FindLogAttribute(attributes) == Some(k)
    ensures LogAttributeCount(RemoveAt(attributes, k)) == LogAttributeCount(attributes) - 1
  {
    if k == 0 {
      assert RemoveAt(attributes, k) == attributes[1..];
    } else {
      var rest := attributes[1..];
      RemoveMarkerCount(rest, k - 1);
      assert RemoveAt(attributes, k) == [attributes[0]] + RemoveAt(rest, k - 1);
      assert (RemoveAt(attributes, k))[1..] == RemoveAt(rest, k - 1);
    }
  }

  /**
   * A weave removes one marker from a marked method and none from an unmarked
   * one; so a method that carried at most one marker is unmarked afterwards
   * and is not woven again, while one that carried several is.
   */
  lemma WovenCount(site: Site, s0: MethodState, s1: MethodState)
    requires Woven(site, s0, s1)
    ensures LogAttributeCount(s1.customAttributes)
            == LogAttributeCount(s0.customAttributes) - (if Marked(s0) then 1 else 0)
    ensures !Marked(s1) <==> LogAttributeCount(s0.customAttributes) <= 1
  {
    MarkedIffCount(s0.customAttributes);
    MarkedIffCount(s1.customAttributes);
    if Marked(s0) {
      RemoveMarkerCount(s0.customAttributes, FindLogAttribute(s0.customAttributes).value);
    }
  }

  /**
   * When the last instruction occurs only once, as in every body Cecil reads,
   * the woven body is the Enter pair, the body up to its last instruction, the
   * Exit pair, and the last instruction.
   */
  lemma WovenBodyUniqueLast(before: seq<Instruction>, after: seq<Instruction>, enter: string, exit: string,
                            log: MethodReference)
    requires |before| > 0 && before[|before| - 1] !in before[..|before| - 1]
    requires IsWovenBody(before, after, enter, exit, log)
    ensures |after| == |before| + 4
    ensures IsLdstr(after[0], enter) && IsCallTo(after[1], log)
    ensures after[2..|before| + 1] == before[..|before| - 1]
    ensures IsLdstr(after[|before| + 1], exit) && IsCallTo(after[|before| + 2], log)
    ensures after[|before| + 3] == before[|before| - 1]
  {
    var n := |before|;
    IndexOfFirst(before, before[n - 1]);
    assert ExitAnchor(before) == n - 1;
    assert after[n + 3] == after[n + 3..][0];
  }

  /**
   * A body of one instruction, which is both anchors: it ends up last, after
   * the Enter pair and then the Exit pair.
   */
  lemma WovenSingleInstruction(before: seq<Instruction>, after: seq<Instruction>, enter: string, exit: string,
                               log: MethodReference)
    requires |before| == 1
    requires IsWovenBody(before, after, enter, exit, log)
    ensures |after| == 5
    ensures IsLdstr(after[0], enter) && IsCallTo(after[1], log)
    ensures IsLdstr(after[2], exit) && IsCallTo(after[3], log)
    ensures after[4] == before[0]
  {
    WovenBodyUniqueLast(before, after, enter, exit, log);
  }

  /** The two literals differ, whatever the names: "Enter " and "Exit " part at their second character. */
  lemma EnterExitDiffer(typeFullName: string, methodName: string)
    ensures EnterMessage(typeFullName, methodName) != ExitMessage(typeFullName, methodName)
  {
    assert EnterMessage(typeFullName, methodName)[1] == 'n';
    assert ExitMessage(typeFullName, methodName)[1] == 'x';
  }
}

