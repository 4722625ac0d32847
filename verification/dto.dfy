/** The request objects callers hand to the service. */
module Dto {
  import opened Wrappers
  import opened MindsdbModels

  /** One property of a JavaScript object: not there at all, there but `undefined`, `null`, or a value. */
  datatype Prop<T> = Absent | Undefined | Null | Value(v: T) {

    /** The property as `??` sees it: absent, `undefined` and `null` all give way. */
    function AsOption(): (r: Option<T>)
      ensures r.Some? <==> Value?
      ensures Value? ==> r == Some(v)
    {
      if Value? then Some(v) else None
    }

    /** The property after `delete` of an `undefined` one. */
    function DropUndefined(): (r: Prop<T>)
      ensures r.Undefined? == false
      ensures !Undefined? ==> r == this
      ensures r.AsOption() == AsOption()
    {
      if Undefined? then Absent else this
    }
  }

  /** The keys a predict request can hold. */
  datatype Key = JoinKey | WhereKey | LimitKey | ParamsKey | VersionKey

  /** The properties of a predict request, as a value. */
  datatype PredictProps = PredictProps(join: Prop<string>, where: Prop<Where>, limit: Prop<int>, params: Prop<Params>, version: Prop<int>)
  {
    /** The request as `getPredictOptions` reads it. */
    function Query(): PredictQuery {
      PredictQuery(join.AsOption(), where.AsOption(), limit.AsOption(), params.AsOption(), version.AsOption())
    }

    /** Whether the property under `k` is on the object (possibly as `undefined`). */
    predicate Has(k: Key) {
      match k
      case JoinKey => !join.Absent?
      case WhereKey => !where.Absent?
      case LimitKey => !limit.Absent?
      case ParamsKey => !params.Absent?
      case VersionKey => !version.Absent?
    }

    /** `Object.keys(query)`: every property on the object. JavaScript lists them in insertion
        order; the model fixes one order, which `DeleteUndefinedAtFields` shows does not matter. */
    function Keys(): (ks: seq<Key>)
      ensures forall k :: k in ks <==> Has(k)
    {
      (if Has(JoinKey) then [JoinKey] else []) + (if Has(WhereKey) then [WhereKey] else [])
        + (if Has(LimitKey) then [LimitKey] else []) + (if Has(ParamsKey) then [ParamsKey] else [])
        + (if Has(VersionKey) then [VersionKey] else [])
    }

    /** `query[k] === undefined` for a key on the object. */
    predicate IsUndefined(k: Key) {
      match k
      case JoinKey => join.Undefined?
      case WhereKey => where.Undefined?
      case LimitKey => limit.Undefined?
      case ParamsKey => params.Undefined?
      case VersionKey => version.Undefined?
    }

    /** The properties after `if (query[k] === undefined) delete query[k]`. */
    function DeleteIfUndefined(k: Key): (r: PredictProps)
      ensures !IsUndefined(k) ==> r == this
      ensures !r.IsUndefined(k) && !r.Has(k) == (!Has(k) || IsUndefined(k))
      ensures forall other :: other != k ==> r.IsUndefined(other) == IsUndefined(other) && r.Has(other) == Has(other)
      ensures r.Query() == Query()
    {
      match k
      case JoinKey => this.(join := join.DropUndefined())
      case WhereKey => this.(where := where.DropUndefined())
      case LimitKey => this.(limit := limit.DropUndefined())
      case ParamsKey => this.(params := params.DropUndefined())
      case VersionKey => this.(version := version.DropUndefined())
    }

    /** Every property with its `undefined` removed. */
    function WithoutUndefined(): PredictProps {
      PredictProps(join.DropUndefined(), where.DropUndefined(), limit.DropUndefined(), params.DropUndefined(),
                   version.DropUndefined())
    }
  }

  /** The properties after the keys `ks` are visited in order. */
  function DeleteUndefinedAt(p: PredictProps, ks: seq<Key>): PredictProps
    decreases |ks|
  {
    if ks == [] then p else DeleteUndefinedAt(p, ks[..|ks| - 1]).DeleteIfUndefined(ks[|ks| - 1])
  }

  /** Visiting keys strips `undefined` from exactly the visited properties, whatever the order
      and however often a key is visited. */
  lemma {:induction false} DeleteUndefinedAtFields(p: PredictProps, ks: seq<Key>)
    ensures DeleteUndefinedAt(p, ks) == PredictProps(
      if JoinKey in ks then p.join.DropUndefined() else p.join,
      if WhereKey in ks then p.where.DropUndefined() else p.where,
      if LimitKey in ks then p.limit.DropUndefined() else p.limit,
      if ParamsKey in ks then p.params.DropUndefined() else p.params,
      if VersionKey in ks then p.version.DropUndefined() else p.version)
    decreases |ks|
  {
    if ks != [] {
      var init := ks[..|ks| - 1];
      DeleteUndefinedAtFields(p, init);
      assert ks == init + [ks[|ks| - 1]];
      assert forall k :: k in ks <==> k in init || k == ks[|ks| - 1];
    }
  }

  /** Visiting every key on the object leaves no `undefined` property, removes exactly the
      `undefined` ones, and changes nothing that `??` reads. */
  lemma VisitingAllKeysStrips(p: PredictProps)
    ensures DeleteUndefinedAt(p, p.Keys()) == p.WithoutUndefined()
    ensures forall k :: !p.WithoutUndefined().IsUndefined(k)
    ensures forall k :: p.WithoutUndefined().Has(k) <==> p.Has(k) && !p.IsUndefined(k)
    ensures p.WithoutUndefined().Query() == p.Query()
  {
    DeleteUndefinedAtFields(p, p.Keys());
  }

  /** `PredictMindsdbDto`: a request object whose properties the service deletes in place. */
  class PredictMindsdbDto {
    var join: Prop<string>
    var where: Prop<Where>
    var limit: Prop<int>
    var params: Prop<Params>
    var version: Prop<int>

    constructor (join: Prop<string>, where: Prop<Where>, limit: Prop<int>, params: Prop<Params>, version: Prop<int>)
      ensures Props() == PredictProps(join, where, limit, params, version)
    {
      this.join, this.where, this.limit, this.params, this.version := join, where, limit, params, version;
    }

    /** The properties, as a value. */
    function Props(): PredictProps
      reads this
    {
      PredictProps(join, where, limit, params, version)
    }

    /** `delete query[k]` */
    method Delete(k: Key)
      modifies this
      ensures Props() == match k
        case JoinKey => old(Props()).(join := Absent)
        case WhereKey => old(Props()).(where := Absent)
        case LimitKey => old(Props()).(limit := Absent)
        case ParamsKey => old(Props()).(params := Absent)
        case VersionKey => old(Props()).(version := Absent)
    {
      match k
      case JoinKey => join := Absent;
      case WhereKey => where := Absent;
      case LimitKey => limit := Absent;
      case ParamsKey => params := Absent;
      case VersionKey => version := Absent;
    }

    /** `if (query[k] === undefined) delete query[k]` */
    method DeleteIfUndefined(k: Key)
      modifies this
      ensures Props() == old(Props()).DeleteIfUndefined(k)
    {
      if Props().IsUndefined(k) {
        Delete(k);
      }
    }

    /** `Object.keys(query).forEach(key => { if (query[key] === undefined) delete query[key]; })` */
    method DeleteUndefined()
      modifies this
      ensures Props() == old(Props()).WithoutUndefined()
    {
      var keys := Props().Keys();
      var i := 0;
      while i < |keys|
        invariant 0 <= i <= |keys|
        invariant Props() == DeleteUndefinedAt(old(Props()), keys[..i])
      {
        assert keys[..i + 1][..i] == keys[..i];
        DeleteIfUndefined(keys[i]);
        i := i + 1;
      }
      assert keys[..i] == keys;
      VisitingAllKeysStrips(old(Props()));
    }
  }

  /** `FinetuneMindsdbDto` as `??` sees it. */
  datatype FinetuneRequest = FinetuneRequest(select: Option<string>, using: Option<Json>, params: Option<Params>)
}
