/** The builder for the `aws cloudformation deploy` argument list: a map from
    flag names to values, filled in by setters and rendered as `--key [value]`. */
module Deploy {
  import opened Wrappers

  const AwsCliCfn: string := "cloudformation"
  const AwsCliCfnDeploy: string := "deploy"

  // The flag names the setters write.
  const StackNameKey: string := "stack-name"
  const TemplateFileKey: string := "template-file"
  const ProfileKey: string := "profile"
  const ParameterOverridesKey: string := "parameter-overrides"
  const DebugKey: string := "debug"
  const KmsKeyIdKey: string := "kms-key-id"
  const S3BucketKey: string := "s3-bucket"
  const S3PrefixKey: string := "s3-prefix"
  const ForceUploadKey: string := "force-upload"

  const KnownKeys: set<string> := {
    StackNameKey, TemplateFileKey, ProfileKey, ParameterOverridesKey, DebugKey,
    KmsKeyIdKey, S3BucketKey, S3PrefixKey, ForceUploadKey
  }

  /** `strings.Join`: the parts separated by `sep`; no parts give "". */
  function Join(parts: seq<string>, sep: string): string {
    if |parts| == 0 then ""
    else if |parts| == 1 then parts[0]
    else parts[0] + sep + Join(parts[1..], sep)
  }

  // ---------------------------------------------------------------------------
  // Rendering the map as command-line tokens

  /** The tokens one entry contributes: the flag, then the value if non-empty. */
  function Group(key: string, value: string): seq<string> {
    ["--" + key] + (if value != "" then [value] else [])
  }

  /** The tokens of the entries of `m`, taken in the order `order`. */
  function Render(m: map<string, string>, order: seq<string>): seq<string>
    requires forall k :: k in order ==> k in m
  {
    if order == [] then []
    else Render(m, order[..|order| - 1]) + Group(order[|order| - 1], m[order[|order| - 1]])
  }

  /** `order` lists every key of `keys` exactly once: one possible iteration order
      of a Go map with those keys. */
  ghost predicate IsOrdering(order: seq<string>, keys: set<string>) {
    && (forall i, j :: 0 <= i < j < |order| ==> order[i] != order[j])
    && (forall k :: k in order <==> k in keys)
  }

  class DeployCommand {
    var args: map<string, string>

    /** A builder with no flags. */
    constructor ()
      ensures args == map[]
    {
      args := map[];
    }

    method SetStackName(stackName: string)
      modifies this
      ensures args == old(args)[StackNameKey := stackName]
    {
      args := args[StackNameKey := stackName];
    }

    method SetTemplateFile(template: string)
      modifies this
      ensures args == old(args)[TemplateFileKey := template]
    {
      args := args[TemplateFileKey := template];
    }

    method SetProfile(profile: string)
      modifies this
      ensures args == old(args)[ProfileKey := profile]
    {
      args := args[ProfileKey := profile];
    }

    /** Stores the overrides joined by single spaces, as one value. */
    method SetParameterOverrides(params: seq<string>)
      modifies this
      ensures args == old(args)[ParameterOverridesKey := Join(params, " ")]
    {
      args := args[ParameterOverridesKey := Join(params, " ")];
    }

    /** Stores an empty value, so the flag renders without a value token. */
    method SetDebug()
      modifies this
      ensures args == old(args)[DebugKey := ""]
    {
      args := args[DebugKey := ""];
    }

    method SetKmsKeyId(id: string)
      modifies this
      ensures args == old(args)[KmsKeyIdKey := id]
    {
      args := args[KmsKeyIdKey := id];
    }

    method SetS3Bucket(bucket: string)
      modifies this
      ensures args == old(args)[S3BucketKey := bucket]
    {
      args := args[S3BucketKey := bucket];
    }

    method SetS3Prefix(prefix: string)
      modifies this
      ensures args == old(args)[S3PrefixKey := prefix]
    {
      args := args[S3PrefixKey := prefix];
    }

    /** Stores an empty value, so the flag renders without a value token. */
    method SetForceUpload()
      modifies this
      ensures args == old(args)[ForceUploadKey := ""]
    {
      args := args[ForceUploadKey := ""];
    }

    /** The flag tokens. Go visits the map in an unspecified order, modelled by
        picking any remaining key; `order` records the order taken. */
    method Args() returns (tokens: seq<string>, ghost order: seq<string>)
      ensures IsOrdering(order, args.Keys)
      ensures tokens == Render(args, order)
      ensures |tokens| == |args| + |NonEmptyKeys(args)|
      ensures NoFlagValues(args) ==> ParseFlags(tokens) == Some(args)
    {
      tokens, order := [], [];
      var rest := args.Keys;
      while rest != {}
        invariant rest <= args.Keys
        invariant forall i, j :: 0 <= i < j < |order| ==> order[i] != order[j]
        invariant forall k :: k in order <==> k in args.Keys && k !in rest
        invariant tokens == Render(args, order)
        decreases |rest|
      {
        var k :| k in rest;
        var v := args[k];
        ghost var before := tokens;
        tokens := tokens + ["--" + k];
        if v != "" {
          tokens := tokens + [v];
        }
        assert tokens == before + Group(k, v);
        RenderSnoc(args, order, k);
        order := order + [k];
        rest := rest - {k};
      }
      RenderLength(args, order);
      if NoFlagValues(args) {
        ParseRender(args, order);
      }
    }

    /** The whole argument list after the `aws` executable. */
    method AwsCliArgs() returns (tokens: seq<string>, ghost order: seq<string>)
      ensures IsOrdering(order, args.Keys)
      ensures tokens == [AwsCliCfn, AwsCliCfnDeploy] + Render(args, order)
      ensures |tokens| == 2 + |args| + |NonEmptyKeys(args)|
      ensures tokens[..2] == [AwsCliCfn, AwsCliCfnDeploy]
      ensures NoFlagValues(args) ==> ParseFlags(tokens[2..]) == Some(args)
    {
      var rest;
      rest, order := Args();
      tokens := [AwsCliCfn, AwsCliCfnDeploy] + rest;
      assert tokens[2..] == rest;
    }
  }

  // ---------------------------------------------------------------------------
  // Properties of the rendering

  /** Rendering one more key appends that key's group. */
  lemma RenderSnoc(m: map<string, string>, order: seq<string>, k: string)
    requires forall q :: q in order ==> q in m
    requires k in m
    ensures Render(m, order + [k]) == Render(m, order) + Group(k, m[k])
  {
    assert (order + [k])[..|order|] == order;
  }

  /** The keys of `m` with a non-empty value: those that add a value token. */
  function NonEmptyKeys(m: map<string, string>): set<string> {
    set k | k in m && m[k] != ""
  }

  lemma {:induction false} DistinctCard(order: seq<string>)
    requires forall i, j :: 0 <= i < j < |order| ==> order[i] != order[j]
    ensures |set k | k in order| == |order|
  {
    if order != [] {
      var init := order[..|order| - 1];
      var x := order[|order| - 1];
      DistinctCard(init);
      assert (set k | k in order) == (set k | k in init) + {x};
      assert x !in init;
    }
  }

  lemma {:induction false} RenderLengthIn(m: map<string, string>, order: seq<string>)
    requires forall k :: k in order ==> k in m
    requires forall i, j :: 0 <= i < j < |order| ==> order[i] != order[j]
    ensures |Render(m, order)| == |order| + |set k | k in order && m[k] != ""|
  {
    if order != [] {
      var init := order[..|order| - 1];
      var x := order[|order| - 1];
      RenderLengthIn(m, init);
      assert order == init + [x];
      assert |Render(m, order)| == |Render(m, init)| + |Group(x, m[x])|;
      var s := set k | k in init && m[k] != "";
      assert x !in init;
      if m[x] != "" {
        assert (set k | k in order && m[k] != "") == s + {x};
      } else {
        assert (set k | k in order && m[k] != "") == s;
      }
    }
  }

  /** Every key gives one flag token and every non-empty value one more. */
  lemma RenderLength(m: map<string, string>, order: seq<string>)
    requires IsOrdering(order, m.Keys)
    ensures |Render(m, order)| == |m| + |NonEmptyKeys(m)|
  {
    RenderLengthIn(m, order);
    DistinctCard(order);
    assert (set k | k in order) == m.Keys;
    assert (set k | k in order && m[k] != "") == NonEmptyKeys(m);
  }

  /** `tokens` holds `g` as a contiguous run starting at position `p`. */
  predicate GroupAt(tokens: seq<string>, p: int, g: seq<string>) {
    0 <= p <= |tokens| - |g| && tokens[p..p + |g|] == g
  }

  /** Each key's tokens stand together: `--key`, then its value if non-empty. */
  lemma {:induction false} RenderHasGroup(m: map<string, string>, order: seq<string>, k: string)
    requires forall k :: k in order ==> k in m
    requires k in order
    ensures exists p :: GroupAt(Render(m, order), p, Group(k, m[k]))
  {
    var init := order[..|order| - 1];
    var x := order[|order| - 1];
    var r := Render(m, init);
    var out := Render(m, order);
    var g := Group(k, m[k]);
    if x == k {
      assert GroupAt(out, |r|, g);
    } else {
      assert k in init by {
        var i :| 0 <= i < |order| && order[i] == k;
        assert i < |order| - 1 && init[i] == k;
      }
      RenderHasGroup(m, init, k);
      var p :| GroupAt(r, p, g);
      assert out[p..p + |g|] == r[p..p + |g|];
      assert GroupAt(out, p, g);
    }
  }

  /** A token that reads as a flag. */
  predicate IsFlag(token: string) {
    |token| >= 2 && token[..2] == "--"
  }

  /** No non-empty value could be mistaken for a flag. */
  predicate NoFlagValues(m: map<string, string>) {
    forall k :: k in m && m[k] != "" ==> !IsFlag(m[k])
  }

  /** Reads a token list back into a map, from its end: a flag followed by a
      non-flag token takes that token as its value, a bare flag takes "". */
  function ParseFlags(tokens: seq<string>): Option<map<string, string>> {
    if tokens == [] then Some(map[])
    else
      var last := tokens[|tokens| - 1];
      if IsFlag(last) then
        match ParseFlags(tokens[..|tokens| - 1])
        case None => None
        case Some(m) => Some(m[last[2..] := ""])
      else if |tokens| >= 2 && IsFlag(tokens[|tokens| - 2]) then
        match ParseFlags(tokens[..|tokens| - 2])
        case None => None
        case Some(m) => Some(m[tokens[|tokens| - 2][2..] := last])
      else None
  }

  function Restrict(m: map<string, string>, order: seq<string>): map<string, string> {
    map k | k in m && k in order :: m[k]
  }

  lemma RestrictSnoc(m: map<string, string>, order: seq<string>)
    requires order != [] && order[|order| - 1] in m
    ensures var x := order[|order| - 1];
      Restrict(m, order) == Restrict(m, order[..|order| - 1])[x := m[x]]
  {
    assert order == order[..|order| - 1] + [order[|order| - 1]];
  }

  lemma {:induction false} ParseRenderIn(m: map<string, string>, order: seq<string>)
    requires forall k :: k in order ==> k in m
    requires forall k :: k in m && m[k] != "" ==> !IsFlag(m[k])
    ensures ParseFlags(Render(m, order)) == Some(Restrict(m, order))
  {
    if order == [] {
      assert Restrict(m, order) == map[];
    } else {
      var init := order[..|order| - 1];
      var x := order[|order| - 1];
      var r := Render(m, init);
      var out := Render(m, order);
      ParseRenderIn(m, init);
      assert ("--" + x)[2..] == x;
      assert IsFlag("--" + x) by {
        assert ("--" + x)[..2] == "--";
      }
      if m[x] == "" {
        assert out == r + ["--" + x];
        assert out[..|out| - 1] == r;
      } else {
        assert out == r + ["--" + x, m[x]];
        assert out[..|out| - 2] == r;
      }
      RestrictSnoc(m, order);
    }
  }

  /** Rendering loses nothing: as long as no value reads as a flag, reading the
      tokens back gives the builder's map, whatever iteration order Go took. */
  lemma ParseRender(m: map<string, string>, order: seq<string>)
    requires IsOrdering(order, m.Keys)
    requires NoFlagValues(m)
    ensures ParseFlags(Render(m, order)) == Some(m)
  {
    ParseRenderIn(m, order);
    assert Restrict(m, order) == m;
  }

  /** The only ordering of no keys is empty, so an empty builder renders nothing. */
  lemma EmptyRender(order: seq<string>)
    requires IsOrdering(order, {})
    ensures Render(map[], order) == []
  {
    DistinctCard(order);
    assert (set k | k in order) == {};
  }

  /** The unit test's builder: stack name "test-stack" and debug render as the two
      groups in one order or the other. */
  lemma StackNameDebugRender(order: seq<string>)
    requires IsOrdering(order, {StackNameKey, DebugKey})
    ensures var m := map[StackNameKey := "test-stack", DebugKey := ""];
      Render(m, order) == ["--stack-name", "test-stack", "--debug"]
      || Render(m, order) == ["--debug", "--stack-name", "test-stack"]
  {
    var m := map[StackNameKey := "test-stack", DebugKey := ""];
    assert StackNameKey != DebugKey;
    DistinctCard(order);
    assert (set k | k in order) == {StackNameKey, DebugKey};
    assert |order| == 2;
    assert order == [StackNameKey, DebugKey] || order == [DebugKey, StackNameKey];
    assert order[..1] == [order[0]];
    assert [order[0]][..0] == [];
    assert Render(m, [order[0]]) == Group(order[0], m[order[0]]);
    assert Render(m, order) == Group(order[0], m[order[0]]) + Group(order[1], m[order[1]]);
    assert "--" + StackNameKey == "--stack-name" by {
      assert forall i :: 0 <= i < 12 ==> ("--" + StackNameKey)[i] == "--stack-name"[i];
    }
    assert "--" + DebugKey == "--debug" by {
      assert forall i :: 0 <= i < 7 ==> ("--" + DebugKey)[i] == "--debug"[i];
    }
  }

  /** `New()` followed by `AwsCliArgs()` gives exactly `cloudformation deploy`. */
  method EmptyCommandArgs() returns (tokens: seq<string>)
    ensures tokens == ["cloudformation", "deploy"]
  {
    var c := new DeployCommand();
    ghost var order;
    tokens, order := c.AwsCliArgs();
    EmptyRender(order);
  }

  /** `New().SetStackName("test-stack").SetDebug()` gives the prefix followed by
      the two groups, in either order. */
  method StackNameDebugArgs() returns (tokens: seq<string>)
    ensures tokens == ["cloudformation", "deploy", "--stack-name", "test-stack", "--debug"]
         || tokens == ["cloudformation", "deploy", "--debug", "--stack-name", "test-stack"]
  {
    var c := new DeployCommand();
    c.SetStackName("test-stack");
    c.SetDebug();
    ghost var order;
    tokens, order := c.AwsCliArgs();
    StackNameDebugRender(order);
  }

  // ---------------------------------------------------------------------------
  // Joining parameter overrides

  /** Splits on every space, keeping empty fields, like `strings.Split(s, " ")`. */
  function SplitSpaces(s: string): seq<string> {
    if s == [] then [""]
    else if s[0] == ' ' then [""] + SplitSpaces(s[1..])
    else
      var r := SplitSpaces(s[1..]);
      [[s[0]] + r[0]] + r[1..]
  }

  lemma {:induction false} SplitSpacesLength(s: string)
    ensures |SplitSpaces(s)| >= 1
  {
    if s != [] {
      SplitSpacesLength(s[1..]);
    }
  }

  lemma {:induction false} SplitSpacesPrefix(a: string, b: string)
    requires ' ' !in a
    ensures SplitSpaces(a + " " + b) == [a] + SplitSpaces(b)
    ensures SplitSpaces(a) == [a]
  {
    if a == [] {
      assert a + " " + b == " " + b;
      assert (" " + b)[1..] == b;
    } else {
      assert (a + " " + b)[1..] == a[1..] + " " + b;
      assert ' ' !in a[1..] by {
        forall i | 0 <= i < |a[1..]| ensures a[1..][i] != ' ' {
          assert a[1..][i] == a[i + 1];
        }
      }
      SplitSpacesPrefix(a[1..], b);
      assert [a[0]] + a[1..] == a;
    }
  }

  /** Joining with single spaces is undone by splitting on spaces when no
      override contains a space. */
  lemma {:induction false} SplitJoin(params: seq<string>)
    requires |params| > 0
    requires forall i :: 0 <= i < |params| ==> ' ' !in params[i]
    ensures SplitSpaces(Join(params, " ")) == params
  {
    if |params| == 1 {
      SplitSpacesPrefix(params[0], "");
    } else {
      SplitJoin(params[1..]);
      SplitSpacesPrefix(params[0], Join(params[1..], " "));
      assert [params[0]] + params[1..] == params;
    }
  }
}
