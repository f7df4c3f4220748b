/** Syntax trees.  Source positions are left out; a Go nil node is a constructor or an option. */
module Ast {
  import opened Tokens

  datatype Option<+T> = None | Some(value: T) {
    function GetOr(default: T): T {
      match this case None => default case Some(v) => v
    }
  }

  datatype LitKind = LitString | LitInt | LitDecimal | LitBool | LitTimestamp | LitDate
                   | LitDuration | LitAtom | LitNull

  /** `Nil` is the nil interface value the parser returns, and stores, where it reported an error. */
  datatype Expr =
    | Nil
    | Path(path: string)
    | Lit(kind: LitKind, text: string)
    | Unary(op: TokenType, right: Expr)
    | Binary(op: TokenType, left: Expr, right: Expr)
    | Call(name: string, args: seq<Expr>)

  datatype Assignment = Assignment(target: string, value: Expr)

  /** The parser always leaves the cardinality of a selector at "any". */
  datatype Selector = Selector(kind: string, where: Expr, groupBy: Expr, having: Expr)

  datatype Partition = Partition(name: string, discriminator: Expr, assignments: seq<Assignment>)

  datatype SelectNode = SelectNode(selector: Selector, guard: Expr, assignments: seq<Assignment>)

  // An absent source is a selector the braces of the operator never filled in.

  datatype InsertNode = InsertNode(target: string, source: Option<Selector>, discriminator: Expr,
                                   guard: Expr, assignments: seq<Assignment>)

  datatype DeleteNode = DeleteNode(source: Option<Selector>, guard: Expr)

  /** The operand of `relate` and of `unrelate`. */
  datatype LinkNode = LinkNode(relation: string, from: Option<Selector>, to: Option<Selector>, guard: Expr)

  datatype MergeNode = MergeNode(target: string, source: Option<Selector>, discriminator: Expr,
                                 guard: Expr, retainSources: bool, reanchorRelations: bool,
                                 assignments: seq<Assignment>)

  datatype SplitNode = SplitNode(target: string, source: Option<Selector>, guard: Expr,
                                 retainSource: bool, partitions: seq<Partition>)

  datatype Operator =
    | NilOperator
    | SelectAndAssign(select: SelectNode)
    | InsertEntity(insert: InsertNode)
    | DeleteEntity(delete: DeleteNode)
    | RelateEntities(relate: LinkNode)
    | UnrelateEntities(unrelate: LinkNode)
    | MergeEntities(merge: MergeNode)
    | SplitEntity(split: SplitNode)

  datatype Field = Field(name: string, typeName: string, required: bool)
  datatype Entity = Entity(kind: string, fields: seq<Field>)
  datatype Relation = Relation(kind: string, fromKind: string, toKind: string)
  datatype Requirement = Requirement(field: string, code: string)

  /** `NilDecl` is a typed nil pointer: it is not the nil interface, so the parser keeps it. */
  datatype Decl =
    | NilDecl
    | SchemaDecl(entities: seq<Entity>, relations: seq<Relation>)
    | RuleDecl(id: string, declaredReads: seq<string>, declaredWrites: seq<string>, dependsOn: seq<string>,
               operator: Operator)
    | CheckpointDecl(key: string, after: string)
    | ProfileDecl(key: string, entityKind: string, implies: seq<string>,
                  requirements: seq<Requirement>)

  datatype File = File(declarations: seq<Decl>)
}
