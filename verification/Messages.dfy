/**
 Message accumulation in graph streaming: interleaved chunk streams, one
 accumulator per message id, a metadata event before the first chunk of each id.
 */
module Messages {

  /** How a message arrived: a dict with a chunk marker, a chunk object, or a complete message. */
  datatype Kind = DictChunk | ChunkObject | Complete

  datatype Input<Id, M, Meta> = Input(id: Id, msg: M, meta: Meta, kind: Kind)

  datatype Output<Id, M, Meta> =
    | Metadata(id: Id, meta: Meta)
    | Message(id: Id, partial: bool, content: M)

  /** The two operations on messages that are not ours: `+`, and the conversion
      of an accumulated chunk to a message. */
  datatype Ops<!M> = Ops(add: (M, M) -> M, toMessage: M -> M)

  function Fold<M>(o: Ops<M>, msgs: seq<M>): M
    requires msgs != []
  {
    if |msgs| == 1 then msgs[0] else o.add(Fold(o, msgs[..|msgs| - 1]), msgs[|msgs| - 1])
  }

  /** The inputs of one id, in order. */
  function Of<Id(==), M, Meta>(inputs: seq<Input<Id, M, Meta>>, id: Id): (r: seq<Input<Id, M, Meta>>)
    ensures |r| <= |inputs| && forall k :: 0 <= k < |r| ==> r[k].id == id
  {
    if inputs == [] then []
    else
      var last := inputs[|inputs| - 1];
      Of(inputs[..|inputs| - 1], id) + if last.id == id then [last] else []
  }

  function Contents<Id, M, Meta>(inputs: seq<Input<Id, M, Meta>>): (r: seq<M>)
    ensures |r| == |inputs| && forall k :: 0 <= k < |r| ==> r[k] == inputs[k].msg
  {
    seq(|inputs|, k requires 0 <= k < |inputs| => inputs[k].msg)
  }

  function Format<M>(o: Ops<M>, kind: Kind, accumulated: M): M {
    if kind.DictChunk? then accumulated else o.toMessage(accumulated)
  }

  /** What the last input of the list must produce: its id's metadata if it is
      the first of its id, then the fold of all that id's chunks so far. */
  function LastOutput<Id(==), M, Meta>(o: Ops<M>, inputs: seq<Input<Id, M, Meta>>): seq<Output<Id, M, Meta>>
    requires inputs != []
  {
    var x := inputs[|inputs| - 1];
    var own := Of(inputs, x.id);
    assert own != [];
    (if |own| == 1 then [Metadata(x.id, x.meta)] else [])
    + [Message(x.id, !x.kind.Complete?, Format(o, x.kind, Fold(o, Contents(own))))]
  }

  function Outputs<Id(==), M, Meta>(o: Ops<M>, inputs: seq<Input<Id, M, Meta>>): seq<Output<Id, M, Meta>> {
    if inputs == [] then [] else Outputs(o, inputs[..|inputs| - 1]) + LastOutput(o, inputs)
  }

  /** Splitting off the last input. */
  lemma OfSnoc<Id, M, Meta>(inputs: seq<Input<Id, M, Meta>>, x: Input<Id, M, Meta>, id: Id)
    ensures Of(inputs + [x], id) == Of(inputs, id) + if x.id == id then [x] else []
  {
    assert (inputs + [x])[..|inputs|] == inputs;
  }

  lemma OutputsSnoc<Id, M, Meta>(o: Ops<M>, inputs: seq<Input<Id, M, Meta>>, x: Input<Id, M, Meta>)
    ensures Outputs(o, inputs + [x]) == Outputs(o, inputs) + LastOutput(o, inputs + [x])
  {
    assert (inputs + [x])[..|inputs|] == inputs;
  }

  lemma FoldSnoc<Id, M, Meta>(o: Ops<M>, own: seq<Input<Id, M, Meta>>, x: Input<Id, M, Meta>)
    ensures own == [] ==> Fold(o, Contents(own + [x])) == x.msg
    ensures own != [] ==> Fold(o, Contents(own + [x])) == o.add(Fold(o, Contents(own)), x.msg)
  {
    assert Contents(own + [x])[..|own|] == Contents(own);
  }

  /** The dictionary holds, for each id seen, the fold of its chunks so far. */
  ghost predicate Holds<Id(!new), M, Meta>(o: Ops<M>, messages: map<Id, M>, inputs: seq<Input<Id, M, Meta>>) {
    forall id :: && (id in messages <==> Of(inputs, id) != [])
                 && (id in messages && Of(inputs, id) != [] ==> messages[id] == Fold(o, Contents(Of(inputs, id))))
  }

  /** Folding one more chunk into its id's entry keeps the dictionary right. */
  lemma HoldsAfter<Id(!new), M, Meta>(
      o: Ops<M>, messages: map<Id, M>, next: map<Id, M>, before: seq<Input<Id, M, Meta>>, x: Input<Id, M, Meta>)
    requires Holds(o, messages, before)
    requires next == messages[x.id := if x.id in messages then o.add(messages[x.id], x.msg) else x.msg]
    ensures Holds(o, next, before + [x])
    ensures x.id in next && Of(before + [x], x.id) != [] && next[x.id] == Fold(o, Contents(Of(before + [x], x.id)))
    ensures x.id in messages <==> |Of(before + [x], x.id)| != 1
  {
    FoldSnoc(o, Of(before, x.id), x);
    OfSnoc(before, x, x.id);
    forall id
      ensures id in next <==> Of(before + [x], id) != []
      ensures id in next && Of(before + [x], id) != [] ==> next[id] == Fold(o, Contents(Of(before + [x], id)))
    {
      OfSnoc(before, x, id);
      if id != x.id {
        assert Of(before + [x], id) == Of(before, id);
      }
    }
  }

  class Accumulator<Id(==, !new), M, Meta> {
    var messages: map<Id, M>
    const o: Ops<M>

    constructor (o: Ops<M>)
      ensures messages == map[] && this.o == o
    {
      this.o, messages := o, map[];
    }

    /** One message event after the inputs `before`: it updates the dictionary
        and returns what that event must produce. */
    method Process(ghost before: seq<Input<Id, M, Meta>>, x: Input<Id, M, Meta>)
      returns (results: seq<Output<Id, M, Meta>>)
      requires Holds(o, messages, before)
      modifies this`messages
      ensures Holds(o, messages, before + [x])
      ensures results == LastOutput(o, before + [x])
    {
      ghost var was := messages;
      results := [];
      if x.id !in messages {
        messages := messages[x.id := x.msg];
        results := results + [Metadata(x.id, x.meta)];
      } else {
        messages := messages[x.id := o.add(messages[x.id], x.msg)];
      }
      HoldsAfter(o, was, messages, before, x);
      var formatted := if x.kind.DictChunk? then messages[x.id] else o.toMessage(messages[x.id]);
      results := results + [Message(x.id, !x.kind.Complete?, formatted)];
    }

    /** A whole stream of message events, starting from an empty dictionary. */
    method ProcessAll(inputs: seq<Input<Id, M, Meta>>) returns (results: seq<Output<Id, M, Meta>>)
      requires messages == map[]
      modifies this`messages
      ensures results == Outputs(o, inputs) && Holds(o, messages, inputs)
    {
      results := [];
      for k := 0 to |inputs|
        invariant results == Outputs(o, inputs[..k]) && Holds(o, messages, inputs[..k])
      {
        assert inputs[..k + 1] == inputs[..k] + [inputs[k]];
        OutputsSnoc(o, inputs[..k], inputs[k]);
        var out := Process(inputs[..k], inputs[k]);
        results := results + out;
      }
      assert inputs[..|inputs|] == inputs;
    }
  }

  // -------------------------------------------------- per-id projection

  /** The outputs about one id. */
  function About<Id(==), M, Meta>(outputs: seq<Output<Id, M, Meta>>, id: Id): seq<Output<Id, M, Meta>> {
    if outputs == [] then []
    else
      var last := outputs[|outputs| - 1];
      About(outputs[..|outputs| - 1], id) + if last.id == id then [last] else []
  }

  lemma {:induction false} AboutConcat<Id, M, Meta>(
      a: seq<Output<Id, M, Meta>>, b: seq<Output<Id, M, Meta>>, id: Id)
    ensures About(a + b, id) == About(a, id) + About(b, id)
  {
    if b == [] {
      assert a + b == a;
    } else {
      assert (a + b)[..|a + b| - 1] == a + b[..|b| - 1];
      AboutConcat(a, b[..|b| - 1], id);
    }
  }

  lemma {:induction false} AboutOwn<Id, M, Meta>(outputs: seq<Output<Id, M, Meta>>, id: Id, other: Id)
    requires forall k :: 0 <= k < |outputs| ==> outputs[k].id == id
    ensures About(outputs, other) == if other == id then outputs else []
  {
    if outputs != [] {
      AboutOwn(outputs[..|outputs| - 1], id, other);
      assert outputs == outputs[..|outputs| - 1] + [outputs[|outputs| - 1]];
    }
  }

  lemma {:induction false} AllOf<Id, M, Meta>(own: seq<Input<Id, M, Meta>>, id: Id)
    requires forall k :: 0 <= k < |own| ==> own[k].id == id
    ensures Of(own, id) == own
  {
    if own != [] {
      AllOf(own[..|own| - 1], id);
    }
  }

  /** An input produces the same events when its id's chunks are alone. */
  lemma LastOutputAlone<Id, M, Meta>(o: Ops<M>, inputs: seq<Input<Id, M, Meta>>, own: seq<Input<Id, M, Meta>>, id: Id)
    requires inputs != [] && inputs[|inputs| - 1].id == id && own == Of(inputs, id)
    ensures own == Of(inputs[..|inputs| - 1], id) + [inputs[|inputs| - 1]]
    ensures LastOutput(o, own) == LastOutput(o, inputs)
  {
    AllOf(own, id);
  }

  lemma AboutLast<Id, M, Meta>(o: Ops<M>, inputs: seq<Input<Id, M, Meta>>, id: Id)
    requires inputs != []
    ensures About(LastOutput(o, inputs), id) == if inputs[|inputs| - 1].id == id then LastOutput(o, inputs) else []
  {
    AboutOwn(LastOutput(o, inputs), inputs[|inputs| - 1].id, id);
  }

  /** Streams do not interfere: the outputs about one id are exactly what
      processing that id's chunks alone gives. */
  lemma {:induction false} Projection<Id, M, Meta>(o: Ops<M>, inputs: seq<Input<Id, M, Meta>>, id: Id)
    ensures About(Outputs(o, inputs), id) == Outputs(o, Of(inputs, id))
  {
    if inputs != [] {
      var init, x := inputs[..|inputs| - 1], inputs[|inputs| - 1];
      Projection(o, init, id);
      AboutConcat(Outputs(o, init), LastOutput(o, inputs), id);
      AboutLast(o, inputs, id);
      if x.id == id {
        LastOutputAlone(o, inputs, Of(inputs, id), id);
        OutputsSnoc(o, Of(init, id), x);
      } else {
        assert Of(inputs, id) == Of(init, id);
      }
    }
  }

  /** The k-th message event of a single id's chunks. */
  function KthMessage<Id, M, Meta>(o: Ops<M>, own: seq<Input<Id, M, Meta>>, k: nat): Output<Id, M, Meta>
    requires k < |own|
  {
    Message(own[k].id, !own[k].kind.Complete?, Format(o, own[k].kind, Fold(o, Contents(own[..k + 1]))))
  }

  lemma LastOutputOfOne<Id, M, Meta>(o: Ops<M>, own: seq<Input<Id, M, Meta>>, id: Id)
    requires own != [] && forall k :: 0 <= k < |own| ==> own[k].id == id
    ensures LastOutput(o, own) ==
            (if |own| == 1 then [Metadata(id, own[0].meta)] else []) + [KthMessage(o, own, |own| - 1)]
  {
    AllOf(own, id);
    assert own[..|own|] == own;
  }

  lemma KthOfPrefix<Id, M, Meta>(o: Ops<M>, own: seq<Input<Id, M, Meta>>, init: seq<Input<Id, M, Meta>>, k: nat)
    requires k < |init| < |own| && init == own[..|init|]
    ensures KthMessage(o, init, k) == KthMessage(o, own, k)
  {
    assert init[..k + 1] == own[..k + 1];
  }

  /** The outputs of a single id's chunks: its metadata once, first, then for the
      k-th chunk one message event with the fold of the first k + 1 chunks. */
  lemma {:induction false} OneIdStream<Id, M, Meta>(o: Ops<M>, own: seq<Input<Id, M, Meta>>, id: Id)
    requires own != [] && forall k :: 0 <= k < |own| ==> own[k].id == id
    ensures |Outputs(o, own)| == |own| + 1
    ensures Outputs(o, own)[0] == Metadata(id, own[0].meta)
    ensures forall k :: 0 <= k < |own| ==> Outputs(o, own)[k + 1] == KthMessage(o, own, k)
  {
    var init := own[..|own| - 1];
    LastOutputOfOne(o, own, id);
    if init == [] {
      assert Outputs(o, own) == [] + LastOutput(o, own);
    } else {
      OneIdStream(o, init, id);
      forall k | 0 <= k < |init| ensures KthMessage(o, init, k) == KthMessage(o, own, k) {
        KthOfPrefix(o, own, init, k);
      }
    }
  }

  /** Per id and lossless, over any interleaving: exactly one metadata event per
      id, before its first message event, and the k-th message event of an id
      carries the fold of that id's first k + 1 chunks. */
  lemma AccumulationIsPerId<Id, M, Meta>(
      o: Ops<M>, inputs: seq<Input<Id, M, Meta>>, id: Id, own: seq<Input<Id, M, Meta>>, out: seq<Output<Id, M, Meta>>)
    requires own == Of(inputs, id) && own != []
    requires out == About(Outputs(o, inputs), id)
    ensures |out| == |own| + 1
    ensures out[0] == Metadata(id, own[0].meta)
    ensures forall k :: 0 <= k < |own| ==> out[k + 1] == KthMessage(o, own, k)
  {
    Projection(o, inputs, id);
    OneIdStream(o, own, id);
  }

  /** What the k-th message event of an id carries, for each way its chunk
      arrived: the fold of the id's chunks so far, converted to a message unless
      the chunk was a raw one, and partial unless the message was complete. */
  lemma KthEventCarries<Id, M, Meta>(
      o: Ops<M>, inputs: seq<Input<Id, M, Meta>>, id: Id, own: seq<Input<Id, M, Meta>>, k: nat, fold: M)
    requires own == Of(inputs, id) && k < |own| && fold == Fold(o, Contents(own[..k + 1]))
    ensures |About(Outputs(o, inputs), id)| == |own| + 1
    ensures About(Outputs(o, inputs), id)[k + 1] ==
            match own[k].kind
            case DictChunk => Message(id, true, fold)
            case ChunkObject => Message(id, true, o.toMessage(fold))
            case Complete => Message(id, false, o.toMessage(fold))
  {
    AccumulationIsPerId(o, inputs, id, own, About(Outputs(o, inputs), id));
    assert About(Outputs(o, inputs), id)[k + 1] == KthMessage(o, own, k);
    assert own[k].id == id;
  }

  /** In the interleaved output a metadata event is immediately followed by a
      message event of its own id. */
  lemma {:induction false} MetadataIsAdjacent<Id, M, Meta>(o: Ops<M>, inputs: seq<Input<Id, M, Meta>>, p: nat)
    requires p < |Outputs(o, inputs)| && Outputs(o, inputs)[p].Metadata?
    ensures var out := Outputs(o, inputs);
            p + 1 < |out| && out[p + 1].Message? && out[p + 1].id == out[p].id
  {
    var init := inputs[..|inputs| - 1];
    if p < |Outputs(o, init)| {
      MetadataIsAdjacent(o, init, p);
    }
  }
}
