/**
 * The form actions of the rule management page
 * (`src/routes/manage/rules/+page.server.ts`): create, update and delete
 * categorisation rules in `transaction_rules`, and ask the backend to apply
 * one. Every successful action answers the whole rule list ordered by id.
 */
module ManageRules {
  import opened Js
  import opened Seqs
  import opened Forms

  /**
   * A row of `transaction_rules`. A `NaN` from `Number(...)` travels as JSON
   * `null`, so both ids are optional.
   */
  datatype Rule = Rule(id: int, pattern: string, categoryId: Option<int>, subcategoryId: Option<int>, userId: string)

  /** The database calls an action makes: its write (or the `apply_rule` RPC), then the list query. */
  datatype Call = Write | Fetch

  datatype ActionResult =
    | Fail(status: int, message: string)
    | Rules(rules: seq<Rule>)
    | Applied(rules: seq<Rule>, affectedCount: Option<int>)

  /** `.order('id')`: ascending ids. */
  predicate IdLe(a: Rule, b: Rule) {
    a.id <= b.id
  }

  /** `getRulesQuery`: the rules ordered by id. */
  function RulesById(rules: seq<Rule>): seq<Rule> {
    Sort(rules, IdLe)
  }

  /** The listing holds the same rules, in ascending id order, strictly so when ids are unique. */
  lemma RulesByIdSpec(rules: seq<Rule>)
    ensures multiset(RulesById(rules)) == multiset(rules)
    ensures forall i, j :: 0 <= i < j < |RulesById(rules)| ==> RulesById(rules)[i].id <= RulesById(rules)[j].id
    ensures (forall i, j :: 0 <= i < j < |rules| ==> rules[i].id != rules[j].id) ==>
      forall i, j :: 0 <= i < j < |RulesById(rules)| ==> RulesById(rules)[i].id < RulesById(rules)[j].id
  {
    assert TotalPreorder(IdLe);
    SortSorted(rules, IdLe);
    var r := RulesById(rules);
    if forall i, j :: 0 <= i < j < |rules| ==> rules[i].id != rules[j].id {
      forall i, j | 0 <= i < j < |r|
        ensures r[i].id < r[j].id
      {
        if r[i].id == r[j].id {
          IdsRepeat(rules, r, i, j);
        }
      }
    }
  }

  /** Two listed rules with one id would be two rules with one id in the table. */
  lemma IdsRepeat(rules: seq<Rule>, r: seq<Rule>, i: int, j: int)
    requires multiset(r) == multiset(rules)
    requires 0 <= i < j < |r| && r[i].id == r[j].id
    ensures exists a, b :: 0 <= a < b < |rules| && rules[a].id == rules[b].id
  {
    assert r[i] in multiset(rules) && r[j] in multiset(rules);
    var a :| 0 <= a < |rules| && rules[a] == r[i];
    var b :| 0 <= b < |rules| && rules[b] == r[j];
    if a == b {
      assert r[i] == r[j];
      RepeatCountsTwice(r, i, j);
      assert multiset(rules)[r[i]] >= 2;
      var rest := rules[..a] + rules[a + 1..];
      assert rules == rules[..a] + [rules[a]] + rules[a + 1..];
      assert multiset(rest)[r[i]] >= 1;
      var c :| c in rest && c == r[i];
      var k :| 0 <= k < |rest| && rest[k] == c;
      if k < a {
        assert rules[k] == c;
        assert k < a && rules[k].id == rules[a].id;
      } else {
        assert rules[k + 1] == c;
        assert a < k + 1 && rules[a].id == rules[k + 1].id;
      }
    } else if a < b {
      assert rules[a].id == rules[b].id;
    } else {
      assert rules[b].id == rules[a].id;
    }
  }

  /**
   * The fields `createRule` and `upsertRule` write: the pattern as a string,
   * `Number(category_id)`, `Number(subcategory_id)` when it is truthy and null
   * otherwise, and the session user's id.
   */
  function RuleFields(id: int, pattern: string, categoryId: string, subcategoryId: Option<string>, userId: string): (r: Rule)
    ensures r.id == id && r.pattern == pattern && r.userId == userId
    ensures r.categoryId == NumberOf(categoryId)
    ensures !Truthy(subcategoryId) ==> r.subcategoryId.None?
    ensures Truthy(subcategoryId) ==> r.subcategoryId == NumberOf(subcategoryId.value)
  {
    Rule(id, pattern, NumberOf(categoryId), if Truthy(subcategoryId) then NumberOf(subcategoryId.value) else None, userId)
  }

  /** Form values written out from a rule's ids are stored back as those ids. */
  lemma RuleFieldsRoundTrip(r: Rule)
    requires r.categoryId.Some?
    ensures RuleFields(r.id, r.pattern, IntString(r.categoryId.value),
                       if r.subcategoryId.Some? then Some(IntString(r.subcategoryId.value)) else None, r.userId) == r
  {
    NumberOfIntString(r.categoryId.value);
    if r.subcategoryId.Some? {
      NumberOfIntString(r.subcategoryId.value);
    }
  }

  /** The rows with `id` overwritten by `fields`; every other row unchanged. */
  function Replaced(rules: seq<Rule>, id: int, fields: Rule): (r: seq<Rule>)
    ensures |r| == |rules|
    ensures forall i :: 0 <= i < |rules| ==> r[i] == if rules[i].id == id then fields.(id := id) else rules[i]
  {
    seq(|rules|, i requires 0 <= i < |rules| => if rules[i].id == id then fields.(id := id) else rules[i])
  }

  /** One row of the `apply_rule` answer. */
  datatype ApplyRow = ApplyRow(affectedCount: Option<int>)

  /** `rpcResult?.[0]?.affected_count`: the first row's count; undefined for null data or no row. */
  function AffectedCount(rpcRows: Option<seq<ApplyRow>>): (r: Option<int>)
    ensures rpcRows.None? || rpcRows.value == [] ==> r.None?
    ensures rpcRows.Some? && rpcRows.value != [] ==> r == rpcRows.value[0].affectedCount
  {
    if rpcRows.Some? && |rpcRows.value| > 0 then rpcRows.value[0].affectedCount else None
  }

  class RuleStore {
    var rules: seq<Rule>
    var nextId: int

    ghost predicate Valid()
      reads this
    {
      && (forall i, j :: 0 <= i < j < |rules| ==> rules[i].id != rules[j].id)
      && (forall i :: 0 <= i < |rules| ==> rules[i].id < nextId)
    }

    constructor ()
      ensures Valid() && rules == []
    {
      rules := [];
      nextId := 1;
    }

    function Listed(): seq<Rule>
      reads this
    {
      RulesById(rules)
    }

    /**
     * `createRule`: 401 without a session, before the form is read; 400
     * without a pattern or a category; otherwise the rule is inserted with
     * the session user as owner.
     */
    method CreateRule(session: Option<string>, pattern: Option<string>, categoryId: Option<string>, subcategoryId: Option<string>, failing: set<Call>)
      returns (r: ActionResult)
      requires Valid()
      modifies this
      ensures Valid()
      ensures session.None? ==> r == Fail(401, "Unauthorized") && unchanged(this)
      ensures session.Some? && (!Truthy(pattern) || !Truthy(categoryId)) ==>
        r == Fail(400, "Pattern and category are required") && unchanged(this)
      ensures session.Some? && Truthy(pattern) && Truthy(categoryId) ==>
        && (Write in failing ==> r == Fail(500, "Failed to create rule") && unchanged(this))
        && (Write !in failing ==>
              && rules == old(rules) + [RuleFields(old(nextId), pattern.value, categoryId.value, subcategoryId, session.value)]
              && nextId == old(nextId) + 1
              && r == if Fetch in failing then Fail(500, "Failed to create rule") else Rules(Listed()))
    {
      if session.None? {
        return Fail(401, "Unauthorized");
      }
      if !Truthy(pattern) || !Truthy(categoryId) {
        return Fail(400, "Pattern and category are required");
      }
      if Write in failing {
        return Fail(500, "Failed to create rule");
      }
      AppendRule(RuleFields(nextId, pattern.value, categoryId.value, subcategoryId, session.value));
      if Fetch in failing {
        return Fail(500, "Failed to create rule");
      }
      return Rules(Listed());
    }

    /**
     * `upsertRule`: 401 without a session; 400 without an id, a pattern or a
     * category; otherwise only the row whose id is `Number(id)` takes the new
     * fields, owner included. An id that is not a number makes the update fail.
     */
    method UpsertRule(session: Option<string>, id: Option<string>, pattern: Option<string>, categoryId: Option<string>, subcategoryId: Option<string>, failing: set<Call>)
      returns (r: ActionResult)
      requires Valid()
      modifies this
      ensures Valid()
      ensures nextId == old(nextId)
      ensures session.None? ==> r == Fail(401, "Unauthorized") && unchanged(this)
      ensures session.Some? && (!Truthy(id) || !Truthy(pattern) || !Truthy(categoryId)) ==>
        r == Fail(400, "ID, pattern, and category are required for updates") && unchanged(this)
      ensures session.Some? && Truthy(id) && Truthy(pattern) && Truthy(categoryId) ==>
        && (Write in failing || NumberOf(id.value).None? ==> r == Fail(500, "Failed to update rule") && unchanged(this))
        && (Write !in failing && NumberOf(id.value).Some? ==>
              && rules == Replaced(old(rules), NumberOf(id.value).value,
                                   RuleFields(0, pattern.value, categoryId.value, subcategoryId, session.value))
              && r == if Fetch in failing then Fail(500, "Failed to update rule") else Rules(Listed()))
    {
      if session.None? {
        return Fail(401, "Unauthorized");
      }
      if !Truthy(id) || !Truthy(pattern) || !Truthy(categoryId) {
        return Fail(400, "ID, pattern, and category are required for updates");
      }
      var rowId := NumberOf(id.value);
      if Write in failing || rowId.None? {
        return Fail(500, "Failed to update rule");
      }
      ReplaceRule(rowId.value, RuleFields(0, pattern.value, categoryId.value, subcategoryId, session.value));
      if Fetch in failing {
        return Fail(500, "Failed to update rule");
      }
      return Rules(Listed());
    }

    /** `deleteRule`: 400 without an id; otherwise only the rows with id `Number(id)` are removed. No session is asked for. */
    method DeleteRule(id: Option<string>, failing: set<Call>) returns (r: ActionResult)
      requires Valid()
      modifies this
      ensures Valid()
      ensures nextId == old(nextId)
      ensures !Truthy(id) ==> r == Fail(400, "Rule ID is required") && unchanged(this)
      ensures Truthy(id) ==>
        && (Write in failing || NumberOf(id.value).None? ==> r == Fail(500, "Failed to delete rule") && unchanged(this))
        && (Write !in failing && NumberOf(id.value).Some? ==>
              && rules == Filter(old(rules), (x: Rule) => x.id != NumberOf(id.value).value)
              && r == if Fetch in failing then Fail(500, "Failed to delete rule") else Rules(Listed()))
    {
      if !Truthy(id) {
        return Fail(400, "Rule ID is required");
      }
      var rowId := NumberOf(id.value);
      if Write in failing || rowId.None? {
        return Fail(500, "Failed to delete rule");
      }
      RemoveRule(rowId.value);
      if Fetch in failing {
        return Fail(500, "Failed to delete rule");
      }
      return Rules(Listed());
    }

    /** The insert of `createRule`: the row takes the next id. */
    method AppendRule(fields: Rule)
      requires Valid() && fields.id == nextId
      modifies this
      ensures Valid()
      ensures rules == old(rules) + [fields] && nextId == old(nextId) + 1
    {
      rules := rules + [fields];
      nextId := nextId + 1;
    }

    /** The update of `upsertRule`: the rows with id `n` take `fields`, keeping their id. */
    method ReplaceRule(n: int, fields: Rule)
      requires Valid()
      modifies this
      ensures Valid()
      ensures rules == Replaced(old(rules), n, fields) && nextId == old(nextId)
    {
      var replaced := Replaced(rules, n, fields);
      assert forall i :: 0 <= i < |replaced| ==> replaced[i].id == rules[i].id;
      rules := replaced;
    }

    /** The delete of `deleteRule`: exactly the rows with id `n` go. */
    method RemoveRule(n: int)
      requires Valid()
      modifies this
      ensures Valid()
      ensures rules == Filter(old(rules), (x: Rule) => x.id != n) && nextId == old(nextId)
    {
      FilterKeepsKeysDistinct(rules, (x: Rule) => x.id != n, (x: Rule) => x.id);
      rules := Filter(rules, (x: Rule) => x.id != n);
    }

    /**
     * `applyRule`: 400 without an id; otherwise `apply_rule` runs with
     * `parseInt(id)` (its effect on transactions belongs to the backend) and
     * the answer carries the rule list and the first row's `affected_count`.
     */
    method ApplyRule(id: Option<string>, rpcRows: Option<seq<ApplyRow>>, failing: set<Call>) returns (r: ActionResult, argument: Option<int>)
      ensures !Truthy(id) ==> r == Fail(400, "Rule ID is required")
      ensures Truthy(id) ==> argument == ParseInt(id.value)
      ensures Truthy(id) && Write in failing ==> r == Fail(500, "Failed to apply rule")
      ensures Truthy(id) && Write !in failing && Fetch in failing ==> r == Fail(500, "Failed to apply rule")
      ensures Truthy(id) && Write !in failing && Fetch !in failing ==> r == Applied(Listed(), AffectedCount(rpcRows))
    {
      argument := None;
      if !Truthy(id) {
        return Fail(400, "Rule ID is required"), argument;
      }
      argument := ParseInt(id.value);
      if Write in failing || Fetch in failing {
        return Fail(500, "Failed to apply rule"), argument;
      }
      r := Applied(Listed(), AffectedCount(rpcRows));
    }
  }
}
