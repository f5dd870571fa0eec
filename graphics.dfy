/** The graphics context (graphics.go): stacks of blend modes and
    filters that drawing code pushes and pops around a draw, and the
    anti-alias switch. */
module Graphics {

  /** eb.Blend: the blend factors and operations; the zero value is the
      base element of the stack. */
  datatype Blend = Blend(srcRGB: int, srcAlpha: int, dstRGB: int, dstAlpha: int, opRGB: int, opAlpha: int)

  const ZeroBlend := Blend(0, 0, 0, 0, 0, 0)

  datatype Filter = FilterNearest | FilterLinear | FilterPixelated

  /** The element on top of a stack. */
  function Top<T>(s: seq<T>): T
    requires |s| > 0
  {
    s[|s| - 1]
  }

  /** A stack without its top element. */
  function Pop<T>(s: seq<T>): (r: seq<T>)
    requires |s| > 0
    ensures |r| == |s| - 1 && forall i :: 0 <= i < |r| ==> r[i] == s[i]
  {
    s[..|s| - 1]
  }

  /** Pushing then reading the top gives the pushed element; pushing
      then popping gives the stack back. */
  lemma {:induction false} PushThenTopPop<T>(s: seq<T>, x: T)
    ensures Top(s + [x]) == x
    ensures Pop(s + [x]) == s
  {
  }

  /** Popping the base element leaves nothing to read. */
  lemma {:induction false} PopBase<T>(s: seq<T>)
    requires |s| == 1
    ensures |Pop(s)| == 0
  {
  }

  class GraphicsContext {
    var BlendStack: seq<Blend>
    var FilterStack: seq<Filter>
    var AntiAlias: bool

    /** graphics.go init. */
    constructor()
      ensures BlendStack == [ZeroBlend] && FilterStack == [FilterLinear] && AntiAlias
    {
      BlendStack := [ZeroBlend];
      FilterStack := [FilterLinear];
      AntiAlias := true;
    }

    method BeginBlend(b: Blend)
      modifies this
      ensures BlendStack == old(BlendStack) + [b]
      ensures FilterStack == old(FilterStack) && AntiAlias == old(AntiAlias)
    {
      BlendStack := BlendStack + [b];
    }

    /** Slicing `[0 : len-1]` panics on an empty stack. */
    method EndBlend()
      requires |BlendStack| > 0
      modifies this
      ensures BlendStack == Pop(old(BlendStack))
      ensures FilterStack == old(FilterStack) && AntiAlias == old(AntiAlias)
    {
      BlendStack := BlendStack[0..|BlendStack| - 1];
    }

    function CurrentBlend(): (b: Blend)
      requires |BlendStack| > 0
      reads this
      ensures b in BlendStack
    {
      Top(BlendStack)
    }

    method BeginFilter(f: Filter)
      modifies this
      ensures FilterStack == old(FilterStack) + [f]
      ensures BlendStack == old(BlendStack) && AntiAlias == old(AntiAlias)
    {
      FilterStack := FilterStack + [f];
    }

    method EndFilter()
      requires |FilterStack| > 0
      modifies this
      ensures FilterStack == Pop(old(FilterStack))
      ensures BlendStack == old(BlendStack) && AntiAlias == old(AntiAlias)
    {
      FilterStack := FilterStack[0..|FilterStack| - 1];
    }

    function CurrentFilter(): (f: Filter)
      requires |FilterStack| > 0
      reads this
      ensures f in FilterStack
    {
      Top(FilterStack)
    }

    function IsAntiAliasOn(): (on: bool)
      reads this
      ensures on == AntiAlias
    {
      AntiAlias
    }

    method SetAntiAlias(onOff: bool)
      modifies this
      ensures AntiAlias == onOff
      ensures BlendStack == old(BlendStack) && FilterStack == old(FilterStack)
    {
      AntiAlias := onOff;
    }
  }
}
