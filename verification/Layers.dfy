/**
 Display commands, retained layers, and the flattening of a layer tree
 (src/rendering.cpp, append_layer).  Coordinates are reals.
 */
module Layers {
  import opened Common

  datatype Offset = Offset(x: real, y: real)
  datatype Size = Size(width: real, height: real)
  datatype Rect = Rect(origin: Offset, size: Size)

  const ORIGIN := Offset(0.0, 0.0)

  function Plus(a: Offset, b: Offset): Offset {
    Offset(a.x + b.x, a.y + b.y)
  }

  datatype Command =
    | DrawText(text: string, at: Offset)
    | DrawRect(rect: Rect, color: nat)
    | DrawImage(asset: string, destination: Rect)
    | PushClip(clip: Rect)
    | PopClip

  datatype Layer =
    | Container(children: seq<Layer>)
    | OffsetLayer(offset: Offset, child: Layer)
    | ClipRect(rect: Rect, child: Layer)
    | DisplayList(commands: seq<Command>)

  function ShiftRect(r: Rect, move: Offset): Rect {
    Rect(Plus(r.origin, move), r.size)
  }

  function Shift(c: Command, move: Offset): Command {
    match c
    case DrawText(text, at) => DrawText(text, Plus(at, move))
    case DrawRect(rect, color) => DrawRect(ShiftRect(rect, move), color)
    case DrawImage(asset, destination) => DrawImage(asset, ShiftRect(destination, move))
    case PushClip(clip) => PushClip(ShiftRect(clip, move))
    case PopClip => PopClip
  }

  function ShiftAll(cs: seq<Command>, move: Offset): seq<Command> {
    seq(|cs|, i requires 0 <= i < |cs| => Shift(cs[i], move))
  }

  /** The commands a layer contributes when it is drawn at `at`. */
  function Flatten(layer: Layer, at: Offset): seq<Command>
    decreases layer, 1
  {
    match layer
    case Container(children) => FlattenAll(children, at)
    case OffsetLayer(offset, child) => Flatten(child, Plus(at, offset))
    case ClipRect(rect, child) => [PushClip(ShiftRect(rect, at))] + Flatten(child, at) + [PopClip]
    case DisplayList(commands) => ShiftAll(commands, at)
  }

  function FlattenAll(layers: seq<Layer>, at: Offset): seq<Command>
    decreases layers, 0
  {
    if layers == [] then []
    else FlattenAll(layers[..|layers| - 1], at) + Flatten(layers[|layers| - 1], at)
  }

  /**
   append_layer: the recursive walk that writes a layer into a display list builder.  What it writes are the
   commands of the layer, in order, each moved by the offsets above it.
   */
  method AppendLayer(layer: Layer, builder: seq<Command>, at: Offset) returns (result: seq<Command>)
    ensures result == builder + Flatten(layer, at)
    ensures AllPlaced(result[|builder|..], Items(layer, []), at)
    decreases layer
  {
    match layer {
      case Container(children) =>
        result := builder;
        for i := 0 to |children|
          invariant result == builder + FlattenAll(children[..i], at)
        {
          result := AppendLayer(children[i], result, at);
          FlattenSnoc(children[..i], children[i], at);
          assert children[..i + 1] == children[..i] + [children[i]];
        }
        assert children[..|children|] == children;
      case OffsetLayer(offset, child) =>
        result := AppendLayer(child, builder, Plus(at, offset));
      case ClipRect(rect, child) =>
        result := AppendLayer(child, builder + [PushClip(ShiftRect(rect, at))], at);
        result := result + [PopClip];
      case DisplayList(commands) =>
        result := AppendCommands(commands, builder, at);
    }
    AppendedPlaced(layer, builder, at);
  }

  method AppendCommands(commands: seq<Command>, builder: seq<Command>, at: Offset) returns (result: seq<Command>)
    ensures result == builder + ShiftAll(commands, at)
  {
    result := builder;
    for i := 0 to |commands|
      invariant result == builder + ShiftAll(commands[..i], at)
    {
      result := result + [Shift(commands[i], at)];
    }
  }

  lemma AppendedPlaced(layer: Layer, builder: seq<Command>, at: Offset)
    ensures AllPlaced((builder + Flatten(layer, at))[|builder|..], Items(layer, []), at)
  {
    FlattenPlaced(layer, at, [], at);
    assert (builder + Flatten(layer, at))[|builder|..] == Flatten(layer, at);
  }

  lemma FlattenSnoc(layers: seq<Layer>, last: Layer, at: Offset)
    ensures FlattenAll(layers + [last], at) == FlattenAll(layers, at) + Flatten(last, at)
  {
    assert (layers + [last])[..|layers|] == layers;
  }

  lemma ShiftConcat(a: seq<Command>, b: seq<Command>, move: Offset)
    ensures ShiftAll(a + b, move) == ShiftAll(a, move) + ShiftAll(b, move)
  {
  }

  lemma ShiftFour(a: seq<Command>, b: seq<Command>, c: seq<Command>, d: seq<Command>, move: Offset)
    ensures ShiftAll(a + b + c + d, move) == ShiftAll(a, move) + ShiftAll(b, move) + ShiftAll(c, move)
            + ShiftAll(d, move)
  {
    ShiftConcat(a, b, move);
    ShiftConcat(a + b, c, move);
    ShiftConcat(a + b + c, d, move);
  }

  lemma ShiftTwice(cs: seq<Command>, a: Offset, b: Offset)
    ensures ShiftAll(ShiftAll(cs, a), b) == ShiftAll(cs, Plus(a, b))
  {
    forall i | 0 <= i < |cs| ensures Shift(Shift(cs[i], a), b) == Shift(cs[i], Plus(a, b)) {}
  }

  /** Drawing a layer elsewhere is drawing it here and translating the commands. */
  lemma {:induction false} FlattenShift(layer: Layer, at: Offset, move: Offset)
    ensures Flatten(layer, Plus(at, move)) == ShiftAll(Flatten(layer, at), move)
    decreases layer, 1
  {
    match layer
    case Container(children) =>
      FlattenAllShift(children, at, move);
    case OffsetLayer(offset, child) =>
      FlattenShift(child, Plus(at, offset), move);
      assert Plus(Plus(at, move), offset) == Plus(Plus(at, offset), move);
    case ClipRect(rect, child) =>
      FlattenShift(child, at, move);
    case DisplayList(commands) =>
      ShiftTwice(commands, at, move);
  }

  lemma {:induction false} FlattenAllShift(layers: seq<Layer>, at: Offset, move: Offset)
    ensures FlattenAll(layers, Plus(at, move)) == ShiftAll(FlattenAll(layers, at), move)
    decreases layers, 0
  {
    if layers == [] {
    } else {
      FlattenAllShift(layers[..|layers| - 1], at, move);
      FlattenShift(layers[|layers| - 1], at, move);
    }
  }

  /** Clip nesting depth after `cs`, starting at depth `d`; negative once a clip underflows. */
  function ClipDepth(cs: seq<Command>, d: int): int {
    if cs == [] then d
    else
      var e := ClipDepth(cs[..|cs| - 1], d);
      if e < 0 then e
      else match cs[|cs| - 1]
        case PushClip(_) => e + 1
        case PopClip => e - 1
        case _ => e
  }

  /** What the DisplayList constructor demands of its commands. */
  predicate Balanced(cs: seq<Command>) {
    ClipDepth(cs, 0) == 0
  }

  predicate DrawsOnly(cs: seq<Command>) {
    forall c | c in cs :: !c.PushClip? && !c.PopClip?
  }

  lemma {:induction false} ClipDepthConcat(a: seq<Command>, b: seq<Command>, d: int)
    ensures ClipDepth(a + b, d) == if ClipDepth(a, d) < 0 then ClipDepth(a, d) else ClipDepth(b, ClipDepth(a, d))
  {
    if b == [] {
      assert a + b == a;
    } else {
      var b' := b[..|b| - 1];
      assert (a + b)[..|a + b| - 1] == a + b';
      ClipDepthConcat(a, b', d);
    }
  }

  lemma {:induction false} DrawsKeepDepth(cs: seq<Command>, d: nat)
    requires DrawsOnly(cs)
    ensures ClipDepth(cs, d) == d
  {
    if cs == [] {
    } else {
      DrawsKeepDepth(cs[..|cs| - 1], d);
      assert cs[|cs| - 1] in cs;
    }
  }

  // ---------------------------------------------------------------- where commands end up

  /** Where a command is anchored; closing a clip has no place. */
  function Anchor(c: Command): Option<Offset> {
    match c
    case DrawText(_, at) => Some(at)
    case DrawRect(rect, _) => Some(rect.origin)
    case DrawImage(_, destination) => Some(destination.origin)
    case PushClip(clip) => Some(clip.origin)
    case PopClip => None
  }

  /** What a command says apart from its anchor. */
  function Rest(c: Command): Command {
    match c
    case DrawText(text, _) => DrawText(text, ORIGIN)
    case DrawRect(rect, color) => DrawRect(Rect(ORIGIN, rect.size), color)
    case DrawImage(asset, destination) => DrawImage(asset, Rect(ORIGIN, destination.size))
    case PushClip(clip) => PushClip(Rect(ORIGIN, clip.size))
    case PopClip => PopClip
  }

  /** A command as it was recorded, and the offsets between the root and it, outermost first. */
  datatype Item = Item(command: Command, path: seq<Offset>)

  function SumX(path: seq<Offset>): real {
    if path == [] then 0.0 else SumX(path[..|path| - 1]) + path[|path| - 1].x
  }

  function SumY(path: seq<Offset>): real {
    if path == [] then 0.0 else SumY(path[..|path| - 1]) + path[|path| - 1].y
  }

  /** `c` is the recorded command, `at` and the offsets on the path further on. */
  predicate Placed(c: Command, item: Item, at: Offset) {
    && Rest(c) == Rest(item.command)
    && (Anchor(item.command).None? ==> Anchor(c).None?)
    && (Anchor(item.command).Some? ==>
          var from := Anchor(item.command).value;
          Anchor(c) == Some(Offset(from.x + at.x + SumX(item.path), from.y + at.y + SumY(item.path))))
  }

  predicate AllPlaced(cs: seq<Command>, items: seq<Item>, at: Offset) {
    |cs| == |items| && forall i | 0 <= i < |cs| :: Placed(cs[i], items[i], at)
  }

  function Marked(cs: seq<Command>, path: seq<Offset>): seq<Item> {
    seq(|cs|, i requires 0 <= i < |cs| => Item(cs[i], path))
  }

  /** What a layer holds, in drawing order, each command with the offset layers above it. */
  function Items(layer: Layer, path: seq<Offset>): seq<Item>
    decreases layer, 1
  {
    match layer
    case Container(children) => AllItems(children, path)
    case OffsetLayer(offset, child) => Items(child, path + [offset])
    case ClipRect(rect, child) => [Item(PushClip(rect), path)] + Items(child, path) + [Item(PopClip, path)]
    case DisplayList(commands) => Marked(commands, path)
  }

  function AllItems(layers: seq<Layer>, path: seq<Offset>): seq<Item>
    decreases layers, 0
  {
    if layers == [] then []
    else AllItems(layers[..|layers| - 1], path) + Items(layers[|layers| - 1], path)
  }

  /** `at` has come about by following `path` from `base`. */
  predicate Reached(base: Offset, path: seq<Offset>, at: Offset) {
    at.x == base.x + SumX(path) && at.y == base.y + SumY(path)
  }

  lemma ReachedNext(base: Offset, path: seq<Offset>, at: Offset, offset: Offset)
    requires Reached(base, path, at)
    ensures Reached(base, path + [offset], Plus(at, offset))
  {
    assert (path + [offset])[..|path|] == path;
  }

  lemma ShiftPlaced(c: Command, base: Offset, path: seq<Offset>, at: Offset)
    requires Reached(base, path, at)
    ensures Placed(Shift(c, at), Item(c, path), base)
  {
  }

  lemma ShiftAllPlaced(cs: seq<Command>, base: Offset, path: seq<Offset>, at: Offset)
    requires Reached(base, path, at)
    ensures AllPlaced(ShiftAll(cs, at), Marked(cs, path), base)
  {
    forall i | 0 <= i < |cs| ensures Placed(ShiftAll(cs, at)[i], Marked(cs, path)[i], base) {
      ShiftPlaced(cs[i], base, path, at);
    }
  }

  lemma PlacedConcat(a: seq<Command>, b: seq<Command>, x: seq<Item>, y: seq<Item>, at: Offset)
    requires AllPlaced(a, x, at) && AllPlaced(b, y, at)
    ensures AllPlaced(a + b, x + y, at)
  {
  }

  lemma OnePlaced(c: Command, item: Item, at: Offset)
    requires Placed(c, item, at)
    ensures AllPlaced([c], [item], at)
  {
  }

  /** Flattening draws every command of the layer, in order, moved by the offsets above it. */
  lemma {:induction false} FlattenPlaced(layer: Layer, base: Offset, path: seq<Offset>, at: Offset)
    requires Reached(base, path, at)
    ensures AllPlaced(Flatten(layer, at), Items(layer, path), base)
    decreases layer, 1
  {
    match layer
    case Container(children) => FlattenAllPlaced(children, base, path, at);
    case OffsetLayer(offset, child) =>
      ReachedNext(base, path, at, offset);
      FlattenPlaced(child, base, path + [offset], Plus(at, offset));
    case ClipRect(rect, child) =>
      var push := Shift(PushClip(rect), at);
      FlattenPlaced(child, base, path, at);
      ShiftPlaced(PushClip(rect), base, path, at);
      OnePlaced(push, Item(PushClip(rect), path), base);
      OnePlaced(PopClip, Item(PopClip, path), base);
      PlacedConcat([push], Flatten(child, at), [Item(PushClip(rect), path)], Items(child, path), base);
    case DisplayList(commands) => ShiftAllPlaced(commands, base, path, at);
  }

  lemma {:induction false} FlattenAllPlaced(layers: seq<Layer>, base: Offset, path: seq<Offset>, at: Offset)
    requires Reached(base, path, at)
    ensures AllPlaced(FlattenAll(layers, at), AllItems(layers, path), base)
    decreases layers, 0
  {
    if layers != [] {
      var n := |layers| - 1;
      FlattenAllPlaced(layers[..n], base, path, at);
      FlattenPlaced(layers[n], base, path, at);
    }
  }
}
