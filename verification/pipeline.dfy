/** The shader stages of the graphics pipeline: the stage table built by
    the constructor, compiling every stage, adding up diagnostics, turning
    each stage into a shader-stage description, and the descriptor-set
    layout the shaders expect. */
module Pipeline {
  import opened Wrappers

  /** `VkShaderStageFlagBits`. */
  const StageVertexBit: bv32 := 0x1
  const StageFragmentBit: bv32 := 0x10

  /** What compiling one stage's source gives: success and the number of
      errors and warnings. The compiler itself is not part of this model. */
  datatype Shader = Shader(compiles: bool, errors: nat, warnings: nat)

  /** `VkPipelineShaderStageCreateInfo`: stage bit, module and entry point. */
  datatype StageInfo = StageInfo(stage: bv32, shaderModule: nat, entryPoint: string)

  /** `Pipeline::ShaderData`: the module and stage description, once set
      up, and the shader resource. */
  datatype ShaderData = ShaderData(shaderModule: Option<nat>, stage: Option<StageInfo>, resource: Shader)

  /** The `shaders` map, keyed by stage name. */
  type Stages = map<string, ShaderData>

  /** The constructor: a "vertex" and a "fragment" stage, neither set up. */
  function NewPipeline(vertex: Shader, fragment: Shader): (s: Stages)
    ensures s.Keys == {"vertex", "fragment"}
    ensures forall name :: name in s ==> s[name].shaderModule.None? && s[name].stage.None?
    ensures s["vertex"].resource == vertex && s["fragment"].resource == fragment
  {
    map["vertex" := ShaderData(None, None, vertex), "fragment" := ShaderData(None, None, fragment)]
  }

  predicate Distinct(order: seq<string>) {
    forall i, j :: 0 <= i < j < |order| ==> order[i] != order[j]
  }

  /** `order` is an iteration order of the unordered map: every stage
      exactly once. */
  predicate Listing(s: Stages, order: seq<string>) {
    Distinct(order)
    && (forall name :: name in order ==> name in s)
    && (forall name :: name in s ==> name in order)
  }

  /** `compile_shaders`: `res &= compile()` for every stage, so each stage
      is compiled (the names are returned in the order they were compiled)
      and the result holds when all of them compile. */
  method CompileShaders(s: Stages, order: seq<string>) returns (ok: bool, compiled: seq<string>)
    requires Listing(s, order)
    ensures compiled == order
    ensures ok <==> forall name :: name in s ==> s[name].resource.compiles
  {
    ok := true;
    compiled := [];
    var i := 0;
    while i < |order|
      invariant 0 <= i <= |order|
      invariant compiled == order[..i]
      invariant ok <==> forall j :: 0 <= j < i ==> s[order[j]].resource.compiles
    {
      var result := s[order[i]].resource.compiles;
      compiled := compiled + [order[i]];
      ok := ok && result;
      i := i + 1;
    }
    assert order[..i] == order;
    if ok {
      forall name | name in s
        ensures s[name].resource.compiles
      {
        var j :| 0 <= j < |order| && order[j] == name;
      }
    }
  }

  /** The sum of one count over the stages, in iteration order. */
  function Tally(s: Stages, order: seq<string>, count: Shader -> nat): nat
    requires forall name :: name in order ==> name in s
  {
    if order == [] then 0 else count(s[order[0]].resource) + Tally(s, order[1..], count)
  }

  /** `get_num_errors`: the errors and the warnings of all stages. */
  function NumErrors(s: Stages, order: seq<string>): (r: (nat, nat))
    requires Listing(s, order)
    ensures r.0 == 0 <==> forall name :: name in s ==> s[name].resource.errors == 0
    ensures r.1 == 0 <==> forall name :: name in s ==> s[name].resource.warnings == 0
  {
    TallyZero(s, order, (sh: Shader) => sh.errors);
    TallyZero(s, order, (sh: Shader) => sh.warnings);
    (Tally(s, order, (sh: Shader) => sh.errors), Tally(s, order, (sh: Shader) => sh.warnings))
  }

  /** The stage bit of a stage name; other names are not handled. */
  function StageBit(name: string): (r: Option<bv32>)
    ensures r.Some? <==> name == "vertex" || name == "fragment"
    ensures name == "vertex" ==> r == Some(StageVertexBit)
    ensures name == "fragment" ==> r == Some(StageFragmentBit)
  {
    if name == "vertex" then Some(StageVertexBit)
    else if name == "fragment" then Some(StageFragmentBit)
    else None
  }

  /** A stage after set-up: its new module, and a description with the
      stage bit, that module and entry point "main". */
  function Configured(name: string, data: ShaderData, handle: string -> nat): ShaderData
    requires StageBit(name).Some?
  {
    ShaderData(Some(handle(name)), Some(StageInfo(StageBit(name).value, handle(name), "main")), data.resource)
  }

  /** `setup_shader_modules`: stages that already have a module are
      skipped; any other gets a module (`handle` stands for the driver
      creating it) and a stage description, and a stage name other than
      "vertex" or "fragment" raises `runtime_error`. */
  function SetupShaderModules(s: Stages, order: seq<string>, handle: string -> nat): (r: Result<Stages, string>)
    requires Distinct(order) && forall name :: name in order ==> name in s
    ensures r.Ok? <==> forall name :: name in order && s[name].shaderModule.None? ==> StageBit(name).Some?
    ensures r.Ok? ==> r.value.Keys == s.Keys
    ensures r.Ok? ==> forall name :: name in s && (name !in order || s[name].shaderModule.Some?) ==> r.value[name] == s[name]
    ensures r.Ok? ==> forall name :: name in order && s[name].shaderModule.None? ==> r.value[name] == Configured(name, s[name], handle)
    ensures r.Err? ==> exists name :: name in order && s[name].shaderModule.None? && StageBit(name).None?
                          && r.error == "stage " + name + " not handled yet"
    decreases |order|
  {
    if order == [] then Ok(s)
    else
      var name := order[0];
      assert forall n :: n in order[1..] ==> n in order && n != name;
      var data := s[name];
      if data.shaderModule.Some? then SetupShaderModules(s, order[1..], handle)
      else
        match StageBit(name)
        case None => Err("stage " + name + " not handled yet")
        case Some(_) => SetupShaderModules(s[name := Configured(name, data, handle)], order[1..], handle)
  }

  // ---------------------------------------------------------------------------
  // Descriptor-set layout

  /** `VkDescriptorType` values. */
  const DescriptorCombinedImageSampler: nat := 1
  const DescriptorUniformBuffer: nat := 6

  datatype LayoutBinding = LayoutBinding(binding: nat, descriptorType: nat, descriptorCount: nat, stageFlags: bv32)

  /** `create_descriptor_set_layout`: the uniform buffer (model, view and
      projection matrices) for the vertex stage and the texture sampler for
      the fragment stage. */
  const DescriptorSetLayout: seq<LayoutBinding> := [
    LayoutBinding(0, DescriptorUniformBuffer, 1, StageVertexBit),
    LayoutBinding(1, DescriptorCombinedImageSampler, 1, StageFragmentBit)
  ]

  // ---------------------------------------------------------------------------
  // Proofs

  lemma {:induction false} TallyZero(s: Stages, order: seq<string>, count: Shader -> nat)
    requires Listing(s, order)
    ensures Tally(s, order, count) == 0 <==> forall name :: name in s ==> count(s[name].resource) == 0
  {
    TallyZeroAll(s, order, count);
  }

  lemma {:induction false} TallyZeroAll(s: Stages, order: seq<string>, count: Shader -> nat)
    requires forall name :: name in order ==> name in s
    ensures Tally(s, order, count) == 0 <==> forall name :: name in order ==> count(s[name].resource) == 0
  {
    if order != [] {
      assert forall name :: name in order <==> name == order[0] || name in order[1..];
      TallyZeroAll(s, order[1..], count);
    }
  }

  lemma {:induction false} TallySplit(s: Stages, a: seq<string>, b: seq<string>, count: Shader -> nat)
    requires forall name :: name in a + b ==> name in s
    ensures Tally(s, a + b, count) == Tally(s, a, count) + Tally(s, b, count)
  {
    if a == [] {
      assert a + b == b;
    } else {
      assert (a + b)[1..] == a[1..] + b;
      TallySplit(s, a[1..], b, count);
    }
  }

  /** The totals do not depend on the order the map is walked in. */
  lemma {:induction false} TallyOrderIndependent(s: Stages, o1: seq<string>, o2: seq<string>, count: Shader -> nat)
    requires Distinct(o1) && Distinct(o2)
    requires forall name :: name in o1 ==> name in s
    requires forall name :: name in o1 <==> name in o2
    ensures Tally(s, o1, count) == Tally(s, o2, count)
    decreases |o1|
  {
    assert o2 == [] || o2[0] in o1;
    if o1 != [] {
      var x := o1[0];
      assert x in o2;
      var k :| 0 <= k < |o2| && o2[k] == x;
      var tail, rest := o1[1..], o2[..k] + o2[k + 1..];
      SameAfterRemoval(o1, o2, k);
      DistinctRemove(o2, k);
      TallyOrderIndependent(s, tail, rest, count);
      TallyRemove(s, o2, k, count);
    }
  }

  /** Taking one name out of a listing takes its count out of the total. */
  lemma TallyRemove(s: Stages, o: seq<string>, k: nat, count: Shader -> nat)
    requires k < |o|
    requires forall name :: name in o ==> name in s
    ensures forall name :: name in o[..k] + o[k + 1..] ==> name in s
    ensures Tally(s, o, count) == count(s[o[k]].resource) + Tally(s, o[..k] + o[k + 1..], count)
  {
    var x := o[k];
    assert o == o[..k] + ([x] + o[k + 1..]);
    TallySplit(s, o[..k], [x] + o[k + 1..], count);
    TallySplit(s, o[..k], o[k + 1..], count);
    assert ([x] + o[k + 1..])[1..] == o[k + 1..];
  }

  /** Taking the first name off one listing and the same name off the
      other leaves two listings of the same names. */
  lemma SameAfterRemoval(o1: seq<string>, o2: seq<string>, k: nat)
    requires Distinct(o1) && Distinct(o2)
    requires forall name :: name in o1 <==> name in o2
    requires o1 != [] && k < |o2| && o2[k] == o1[0]
    ensures forall name :: name in o1[1..] <==> name in o2[..k] + o2[k + 1..]
  {
    var x, rest := o1[0], o2[..k] + o2[k + 1..];
    forall name | name in rest
      ensures name in o1[1..]
    {
      var j: nat;
      if name in o2[..k] {
        var i :| 0 <= i < k && o2[..k][i] == name;
        j := i;
      } else {
        var i :| 0 <= i < |o2| - k - 1 && o2[k + 1..][i] == name;
        j := k + 1 + i;
      }
      assert o2[j] == name && j != k;
      assert name in o1;
      var i :| 0 <= i < |o1| && o1[i] == name;
      assert i != 0;
      assert o1[1..][i - 1] == name;
    }
    forall name | name in o1[1..]
      ensures name in rest
    {
      var i :| 0 <= i < |o1| - 1 && o1[1..][i] == name;
      assert o1[i + 1] == name;
      assert name != x && name in o1;
      assert name in o2;
      var j :| 0 <= j < |o2| && o2[j] == name;
      if j < k {
        assert o2[..k][j] == name;
      } else {
        assert o2[k + 1..][j - k - 1] == name;
      }
    }
  }

  lemma DistinctRemove(o: seq<string>, k: nat)
    requires Distinct(o) && k < |o|
    ensures Distinct(o[..k] + o[k + 1..])
  {
    var r := o[..k] + o[k + 1..];
    forall i, j | 0 <= i < j < |r|
      ensures r[i] != r[j]
    {
      var i' := if i < k then i else i + 1;
      var j' := if j < k then j else j + 1;
      assert r[i] == o[i'] && r[j] == o[j'];
    }
  }

  /** `get_num_errors` gives the same totals in every iteration order. */
  lemma NumErrorsOrderIndependent(s: Stages, o1: seq<string>, o2: seq<string>)
    requires Listing(s, o1) && Listing(s, o2)
    ensures NumErrors(s, o1) == NumErrors(s, o2)
  {
    TallyOrderIndependent(s, o1, o2, (sh: Shader) => sh.errors);
    TallyOrderIndependent(s, o1, o2, (sh: Shader) => sh.warnings);
  }

  /** The total of a two-stage listing is the sum of the two stages. */
  lemma TallyTwo(s: Stages, a: string, b: string, count: Shader -> nat)
    requires a in s && b in s
    ensures Tally(s, [a, b], count) == count(s[a].resource) + count(s[b].resource)
  {
    assert [a, b][1..] == [b];
    assert Tally(s, [a, b], count) == count(s[a].resource) + Tally(s, [b], count);
    assert [b][1..] == [];
    assert Tally(s, [b], count) == count(s[b].resource) + Tally(s, [], count);
  }

  /** A new pipeline reports the errors (warnings) of its vertex shader
      plus those of its fragment shader, in whatever order the map is
      walked. */
  lemma NumErrorsOfNew(vertex: Shader, fragment: Shader, order: seq<string>)
    requires Listing(NewPipeline(vertex, fragment), order)
    ensures NumErrors(NewPipeline(vertex, fragment), order)
      == (vertex.errors + fragment.errors, vertex.warnings + fragment.warnings)
  {
    var s, fixed := NewPipeline(vertex, fragment), ["vertex", "fragment"];
    assert Listing(s, fixed);
    NumErrorsOrderIndependent(s, order, fixed);
    TallyTwo(s, "vertex", "fragment", (sh: Shader) => sh.errors);
    TallyTwo(s, "vertex", "fragment", (sh: Shader) => sh.warnings);
  }

  /** A second `setup_shader_modules` changes nothing. */
  lemma SetupIdempotent(s: Stages, order: seq<string>, handle: string -> nat)
    requires Listing(s, order)
    requires SetupShaderModules(s, order, handle).Ok?
    ensures var t := SetupShaderModules(s, order, handle).value;
      SetupShaderModules(t, order, handle) == Ok(t)
  {
    var t := SetupShaderModules(s, order, handle).value;
    assert forall name :: name in order ==> t[name].shaderModule.Some?;
    SetUpStagesSkipped(t, order, handle);
  }

  lemma {:induction false} SetUpStagesSkipped(t: Stages, order: seq<string>, handle: string -> nat)
    requires Distinct(order) && forall name :: name in order ==> name in t && t[name].shaderModule.Some?
    ensures SetupShaderModules(t, order, handle) == Ok(t)
    decreases |order|
  {
    if order != [] {
      assert order[0] in order;
      assert forall n :: n in order[1..] ==> n in order;
      SetUpStagesSkipped(t, order[1..], handle);
    }
  }

  /** The two stages of a new pipeline are always handled: setting them up
      succeeds in any iteration order, with the vertex and fragment bits
      and entry point "main". */
  lemma NewPipelineSetsUp(vertex: Shader, fragment: Shader, order: seq<string>, handle: string -> nat)
    requires Listing(NewPipeline(vertex, fragment), order)
    ensures var r := SetupShaderModules(NewPipeline(vertex, fragment), order, handle);
      r.Ok?
      && r.value["vertex"].stage == Some(StageInfo(StageVertexBit, handle("vertex"), "main"))
      && r.value["fragment"].stage == Some(StageInfo(StageFragmentBit, handle("fragment"), "main"))
  {
    var s := NewPipeline(vertex, fragment);
    assert "vertex" in s && "fragment" in s;
  }

  /** The uniform buffer is binding 0 and visible to the vertex stage
      only; the sampler is binding 1 and visible to the fragment stage only;
      every binding's stage is one the pipeline has. */
  lemma DescriptorBindings()
    ensures |DescriptorSetLayout| == 2
    ensures forall b :: b in DescriptorSetLayout ==> b.descriptorCount == 1
    ensures forall i :: 0 <= i < |DescriptorSetLayout| ==> DescriptorSetLayout[i].binding == i
    ensures DescriptorSetLayout[0].descriptorType == DescriptorUniformBuffer && DescriptorSetLayout[0].stageFlags == StageVertexBit
    ensures DescriptorSetLayout[1].descriptorType == DescriptorCombinedImageSampler && DescriptorSetLayout[1].stageFlags == StageFragmentBit
    ensures forall b :: b in DescriptorSetLayout ==>
      exists name :: name in NewPipeline(Shader(true, 0, 0), Shader(true, 0, 0)) && StageBit(name) == Some(b.stageFlags)
  {
    assert StageBit("vertex") == Some(StageVertexBit);
    assert StageBit("fragment") == Some(StageFragmentBit);
  }
}
