// The syntax tree: one constructor per node class of the evaluator, named as
// the class is.
module Ast {
  import opened Wrappers
  import opened Tokens

  /** A declared parameter: its name and the name of its type. */
  datatype Param = Param(name: string, typeName: string)

  datatype Expr =
    | EmptyExpr
    | StringLiteralExpr(text: string)
    /** The number a literal denotes; None stands for NaN. */
    | NumberLiteralExpr(number: Option<real>)
    | BooleanLiteralExpr(flag: bool)
    | NullLiteralExpr
    | IdentifierExpr(name: string)
    | AssignmentExpr(target: string, value: Expr)
    | BinaryExpr(left: Expr, op: Token, right: Expr)
    | UnaryExpr(op: Token, operand: Expr)
    | FunctionCallExpr(callee: string, args: seq<Expr>)
    | VariableDeclarationExpr(name: string, typeName: string, init: Option<Expr>, isConst: bool)
    | FunctionDeclarationExpr(name: string, params: seq<Param>, body: Expr, returnType: string)
    | IfStmt(condition: Expr, thenBranch: Expr, elseBranch: Option<Expr>)
    | TernaryExpr(condition: Expr, whenTrue: Expr, whenFalse: Expr)
    | ForStmt(initializer: Option<Expr>, test: Option<Expr>, increment: Option<Expr>, failsafe: Option<Expr>, body: Expr)
    /** `while` when isUntil is false, `until` when it is true. */
    | WhileUntilStmt(isUntil: bool, condition: Expr, failsafe: Option<Expr>, body: Expr)
    /** `do … while` when isUntil is false, `do … until` when it is true. */
    | DoWhileUntilStmt(isUntil: bool, condition: Expr, failsafe: Option<Expr>, body: Expr)
    | BlockStmt(statements: seq<Expr>)
    | ReturnStmt(value: Expr)
    | BreakStmt
    | ContinueStmt
    | TemplateLiteralExpr(parts: seq<Expr>)
    | ArrayLiteralExpr(elements: seq<Expr>)
    | TupleLiteralExpr(members: seq<Expr>)
    | ObjectLiteralExpr(fields: seq<(string, Expr)>)
    | ObjectAccessExpr(object: Expr, property: string)
    | ArrayAccessExpr(array: string, index: Expr)
    | TypeDeclarationStmt(name: string, properties: seq<(string, string)>)
    | TupleTypeDeclarationStmt(name: string, memberTypes: seq<string>)
    | ArrayTypeDeclarationStmt(name: string, elementType: string)
    /** A node class without an evaluation rule of its own (the grouping and
        type-literal nodes), named by its class. */
    | Unevaluated(className: string)
}
