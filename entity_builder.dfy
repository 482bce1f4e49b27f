/**
 * The entity builder `build_entity`: a standard entity record with start and
 * end offsets, value and type, the optional role and group, and the caller's
 * extra fields merged in last.
 */
module EntityBuilder {
  import opened Wrappers

  /** The values an entity record holds: offsets, texts, or anything else a caller passes. */
  datatype Value = Int(i: int) | Str(s: string) | Other(repr: string)

  type Entity = map<string, Value>

  // The six attribute names of an entity record. The model relies only on their being distinct.
  const StartKey: string := "start"
  const EndKey: string := "end"
  const ValueKey: string := "value"
  const TypeKey: string := "entity"
  const RoleKey: string := "role"
  const GroupKey: string := "group"

  /** Python truthiness of an optional text: `None` and `""` are false. */
  predicate Truthy(o: Option<string>)
    ensures Truthy(o) <==> o != None && o != Some("")
  {
    o.Some? && o.value != ""
  }

  /** The keys an entity record has: the four standard ones, role and group when truthy, and the extras. */
  function EntityKeys(role: Option<string>, group: Option<string>, extra: Entity): set<string>
  {
    {StartKey, EndKey, ValueKey, TypeKey}
    + (if Truthy(role) then {RoleKey} else {})
    + (if Truthy(group) then {GroupKey} else {})
    + extra.Keys
  }

  /**
   * What `build_entity` promises of its result, key by key: exactly the keys of
   * EntityKeys; an extra field always wins; a standard key that no extra field
   * names holds its argument.
   */
  ghost predicate IsEntityFor(r: Entity, start: int, end: int, value: string, entityType: string,
                              role: Option<string>, group: Option<string>, extra: Entity)
  {
    && r.Keys == EntityKeys(role, group, extra)
    && (forall k :: k in extra ==> k in r && r[k] == extra[k])
    && (StartKey !in extra ==> StartKey in r && r[StartKey] == Int(start))
    && (EndKey !in extra ==> EndKey in r && r[EndKey] == Int(end))
    && (ValueKey !in extra ==> ValueKey in r && r[ValueKey] == Str(value))
    && (TypeKey !in extra ==> TypeKey in r && r[TypeKey] == Str(entityType))
    && (RoleKey !in extra && Truthy(role) ==> RoleKey in r && r[RoleKey] == Str(role.value))
    && (GroupKey !in extra && Truthy(group) ==> GroupKey in r && r[GroupKey] == Str(group.value))
  }

  /** `build_entity(start, end, value, entity_type, role, group, **extra)`. */
  method BuildEntity(start: int, end: int, value: string, entityType: string,
                     role: Option<string> := None, group: Option<string> := None,
                     extra: Entity := map[])
    returns (entity: Entity)
    ensures IsEntityFor(entity, start, end, value, entityType, role, group, extra)
    ensures RoleKey in entity <==> Truthy(role) || RoleKey in extra
    ensures GroupKey in entity <==> Truthy(group) || GroupKey in extra
  {
    entity := map[StartKey := Int(start), EndKey := Int(end), ValueKey := Str(value), TypeKey := Str(entityType)];
    if Truthy(role) {
      entity := entity[RoleKey := Str(role.value)];
    }
    if Truthy(group) {
      entity := entity[GroupKey := Str(group.value)];
    }
    entity := entity + extra;
  }

  /** The contract of BuildEntity determines the record completely. */
  lemma EntityIsDetermined(r1: Entity, r2: Entity, start: int, end: int, value: string, entityType: string,
                           role: Option<string>, group: Option<string>, extra: Entity)
    requires IsEntityFor(r1, start, end, value, entityType, role, group, extra)
    requires IsEntityFor(r2, start, end, value, entityType, role, group, extra)
    ensures r1 == r2
  {
    forall k | k in r1.Keys
      ensures r1[k] == r2[k]
    {
      if k !in extra {
        assert k in {StartKey, EndKey, ValueKey, TypeKey}
          || (Truthy(role) && k == RoleKey) || (Truthy(group) && k == GroupKey);
      }
    }
  }

  /** Without role, group or extras the record has exactly the four standard keys. */
  lemma PlainEntity(r: Entity)
    requires IsEntityFor(r, 0, 5, "Berlin", "city", None, None, map[])
    ensures r == map[StartKey := Int(0), EndKey := Int(5), ValueKey := Str("Berlin"), TypeKey := Str("city")]
    ensures RoleKey !in r && GroupKey !in r
  {
    var expected := map[StartKey := Int(0), EndKey := Int(5), ValueKey := Str("Berlin"), TypeKey := Str("city")];
    assert IsEntityFor(expected, 0, 5, "Berlin", "city", None, None, map[]);
    EntityIsDetermined(r, expected, 0, 5, "Berlin", "city", None, None, map[]);
  }

  /** A non-empty role is recorded; an empty role is dropped like an absent one. */
  lemma RoleEntity(r: Entity, r': Entity)
    requires IsEntityFor(r, 0, 5, "Berlin", "city", Some("location"), None, map[])
    requires IsEntityFor(r', 0, 5, "Berlin", "city", Some(""), None, map[])
    ensures RoleKey in r && r[RoleKey] == Str("location")
    ensures RoleKey !in r'
  {
    assert Truthy(Some("location"));
  }
}
