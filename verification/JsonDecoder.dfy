/** The streaming decoder as an object: it reads the request body in pieces of any size, and every
    piece it reads is captured for the proxy. */
module JsonDecoder {
  import opened Options
  import opened JsonRouting

  class Decoder {
    var unread: seq<Lexeme>      // the request body from where reading stopped
    var captured: seq<Lexeme>    // everything read so far
    var scanned: nat             // how much of it the decoder has used
    var place: Place
    var stack: seq<Place>
    const sizes: nat -> nat      // how much the k-th read would like to return, less one
    var readCount: nat

    ghost predicate Valid()
      reads this
    {
      scanned <= |captured|
    }

    ghost function Rest(): seq<Lexeme>
      requires Valid()
      reads this
    {
      captured[scanned..] + unread
    }

    ghost function Body(): seq<Lexeme>
      reads this
    {
      captured + unread
    }

    ghost function State(): Dec
      requires Valid()
      reads this
    {
      Dec(Rest(), place, stack)
    }

    constructor (body: seq<Lexeme>, sizes: nat -> nat)
      ensures Valid() && State() == Dec(body, TopValue, []) && Body() == body
    {
      unread := body;
      captured := [];
      scanned := 0;
      place := TopValue;
      stack := [];
      this.sizes := sizes;
      readCount := 0;
    }

    /** Look at the next lexeme, reading another piece of the body if the last one is used up. */
    method Peek() returns (c: Option<Lexeme>)
      requires Valid()
      modifies this`unread, this`captured, this`readCount
      ensures Valid() && State() == old(State()) && Body() == old(Body())
      ensures c == if Rest() == [] then None else Some(Rest()[0])
      ensures c.Some? ==> scanned < |captured|
    {
      if scanned == |captured| && unread != [] {
        var n := 1 + sizes(readCount);
        if n > |unread| { n := |unread|; }
        readCount := readCount + 1;
        captured, unread := captured + unread[..n], unread[n..];
      }
      c := if scanned < |captured| then Some(captured[scanned]) else None;
    }

    method Move(to: Place)
      requires Valid() && scanned < |captured|
      modifies this`scanned, this`place
      ensures Valid() && Body() == old(Body())
      ensures State() == Dec(old(Rest())[1..], to, stack)
    {
      scanned := scanned + 1;
      place := to;
    }

    method Token() returns (r: Option<Token>)
      requires Valid()
      modifies this`unread, this`captured, this`readCount, this`scanned, this`place, this`stack
      ensures Valid() && Body() == old(Body())
      ensures match NextToken(old(State()))
              case None => r == None
              case Some((t, d)) => r == Some(t) && State() == d
    {
      while true
        invariant Valid() && Body() == old(Body())
        invariant NextToken(State()) == NextToken(old(State()))
        decreases |Rest()|
      {
        var c := Peek();
        if c.None? { return None; }
        var dotted := c.value.Colon? || c.value.Comma?;
        if !dotted {
          r := Take(c.value);
          return;
        }
        if c.value.Colon? && place.ObjectColon? {
          Move(ObjectValue);
        } else if c.value.Comma? && place.ArrayComma? {
          Move(ArrayValue);
        } else if c.value.Comma? && place.ObjectComma? {
          Move(ObjectKey);
        } else {
          return None;
        }
      }
    }

    /** The lexeme in front is no comma and no colon. */
    method Take(c: Lexeme) returns (r: Option<Token>)
      requires Valid() && scanned < |captured| && captured[scanned] == c && !c.Colon? && !c.Comma?
      modifies this`scanned, this`place, this`stack
      ensures Valid() && Body() == old(Body())
      ensures match NextToken(old(State()))
              case None => r == None
              case Some((t, d)) => r == Some(t) && State() == d
    {
      var allowed := Allowed(place);
      var outer := place;
      match c {
        case LBracket =>
          if !allowed { return None; }
          Move(ArrayStart);
          stack := stack + [outer];
          r := Some(OpenArray);
        case LBrace =>
          if !allowed { return None; }
          Move(ObjectStart);
          stack := stack + [outer];
          r := Some(OpenObject);
        case RBracket =>
          if !(place.ArrayStart? || place.ArrayComma?) || stack == [] { return None; }
          Move(ValueEnd(stack[|stack| - 1]));
          stack := stack[..|stack| - 1];
          r := Some(CloseArray);
        case RBrace =>
          if !(place.ObjectStart? || place.ObjectComma?) || stack == [] { return None; }
          Move(ValueEnd(stack[|stack| - 1]));
          stack := stack[..|stack| - 1];
          r := Some(CloseObject);
        case Quoted(s) =>
          if place.ObjectStart? || place.ObjectKey? {
            Move(ObjectColon);
          } else if allowed {
            Move(ValueEnd(place));
          } else {
            return None;
          }
          r := Some(Text(s));
        case Plain(a) =>
          if !allowed || !Fits(a) { return None; }
          Move(ValueEnd(place));
          r := Some(Scalar(a));
        case Bad =>
          r := None;
      }
    }

    method HasMore() returns (m: bool)
      requires Valid()
      modifies this`unread, this`captured, this`readCount
      ensures Valid() && State() == old(State()) && Body() == old(Body())
      ensures m == More(State())
    {
      var c := Peek();
      m := c.Some? && !c.value.RBracket? && !c.value.RBrace?;
    }

    /** The recursive skipper with its two loops. */
    method Skip() returns (ok: bool)
      requires Valid()
      modifies this`unread, this`captured, this`readCount, this`scanned, this`place, this`stack
      ensures Valid() && Body() == old(Body())
      ensures ok == SkipValue(old(State())).Some?
      ensures ok ==> State() == SkipValue(old(State())).value
      decreases |Rest()|, 0
    {
      var tok := Token();
      if tok.None? { return false; }
      if tok == Some(OpenObject) {
        ok := SkipRestOfObject();
      } else if tok == Some(OpenArray) {
        ok := SkipRestOfArray();
      } else {
        ok := true;
      }
    }

    method SkipRestOfObject() returns (ok: bool)
      requires Valid()
      modifies this`unread, this`captured, this`readCount, this`scanned, this`place, this`stack
      ensures Valid() && Body() == old(Body())
      ensures ok == SkipMembers(old(State())).Some?
      ensures ok ==> State() == SkipMembers(old(State())).value
      decreases |Rest()|, 1
    {
      var more := HasMore();
      while more
        invariant Valid() && Body() == old(Body()) && more == More(State())
        invariant SkipMembers(State()) == SkipMembers(old(State()))
        invariant |Rest()| <= |old(Rest())|
        decreases |Rest()|
      {
        var key := Token();
        if key.None? { return false; }
        var skipped := Skip();
        if !skipped { return false; }
        more := HasMore();
      }
      var close := Token();
      ok := close.Some?;
    }

    method SkipRestOfArray() returns (ok: bool)
      requires Valid()
      modifies this`unread, this`captured, this`readCount, this`scanned, this`place, this`stack
      ensures Valid() && Body() == old(Body())
      ensures ok == SkipElements(old(State())).Some?
      ensures ok ==> State() == SkipElements(old(State())).value
      decreases |Rest()|, 1
    {
      var more := HasMore();
      while more
        invariant Valid() && Body() == old(Body()) && more == More(State())
        invariant SkipElements(State()) == SkipElements(old(State()))
        invariant |Rest()| <= |old(Rest())|
        decreases |Rest()|
      {
        var skipped := Skip();
        if !skipped { return false; }
        more := HasMore();
      }
      var close := Token();
      ok := close.Some?;
    }

    /** The model, or an error; on every way out what was captured and what is still unread make up
        the original body, however the reads were cut. */
    method ParseModel() returns (r: Routed)
      requires Valid()
      modifies this`unread, this`captured, this`readCount, this`scanned, this`place, this`stack
      ensures captured + unread == old(captured + unread)
      ensures r == match NextToken(old(State()))
                   case Some((OpenObject, d)) => ParseMembers(d)
                   case _ => Invalid
    {
      var tok := Token();
      if tok != Some(OpenObject) { return Invalid; }
      ghost var start := State();
      var more := HasMore();
      while more
        invariant Valid() && Body() == old(Body()) && more == More(State())
        invariant ParseMembers(State()) == ParseMembers(start)
        decreases |Rest()|
      {
        var key := Token();
        if key.None? || !key.value.Text? { return Invalid; }
        if key.value.s == "model" {
          var val := Token();
          if val.None? { return Invalid; }
          return Model(if val.value.Text? then val.value.s else "");
        }
        var skipped := Skip();
        if !skipped { return Invalid; }
        more := HasMore();
      }
      r := Model("");
    }
  }

  /** `parseRoutingFields` on a fresh body: the answer of `JsonRouting`, and a body that can be put
      together again. */
  method ParseRouting(body: seq<Lexeme>, sizes: nat -> nat) returns (r: Routed, captured: seq<Lexeme>, unread: seq<Lexeme>)
    ensures r == ParseRoutingFields(body)
    ensures captured + unread == body
  {
    var d := new Decoder(body, sizes);
    r := d.ParseModel();
    captured, unread := d.captured, d.unread;
  }
}
