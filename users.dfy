/** The user table behind the user-management page: adding, editing and
  * deleting users keeps user names unique, and the logged-in user cannot
  * delete themselves. Password hashing and database failures are inputs:
  * `hashed` is the hash or None when hashing fails, and the `...Fails`
  * flags stand for database errors. */
module Users {
  import opened Wrappers
  import opened Text

  datatype UserRow = UserRow(username: string, password: string, roleId: int)

  /** No two users share a name. */
  ghost predicate UniqueNames(rows: map<int, UserRow>)
  {
    forall a, b :: a in rows && b in rows && rows[a].username == rows[b].username ==> a == b
  }

  /** The handlers' `COUNT(*) > 0`: a user other than `except` holds the
    * name. */
  predicate NameTaken(rows: map<int, UserRow>, name: string, except: Option<int>)
  {
    exists id :: id in rows && rows[id].username == name && Some(id) != except
  }

  const EmptyAdd := "用户名、密码和角色不能为空"
  const EmptyEdit := "用户ID、用户名和角色不能为空"
  const EmptyId := "用户ID不能为空"
  const BadRole := "角色ID无效"
  const BadId := "用户ID无效"
  const QueryFailed := "数据库查询失败"
  const NameExists := "用户名已存在"
  const NameUsed := "用户名已被其他用户使用"
  const HashFailed := "密码加密失败"
  const WriteFailed := "数据库写入失败"
  const SelfDelete := "不能删除当前登录用户"

  /** The row a successful edit leaves: the password changes only when a
    * new one was given. */
  function Edited(row: UserRow, name: string, roleId: int, newPassword: Option<string>): (r: UserRow)
    ensures r.username == name && r.roleId == roleId
    ensures r.password == if newPassword.Some? then newPassword.value else row.password
  {
    match newPassword
    case Some(p) => UserRow(name, p, roleId)
    case None => row.(username := name, roleId := roleId)
  }

  class UserTable {
    var rows: map<int, UserRow>
    /** The next AUTO_INCREMENT id. */
    var nextId: int

    ghost predicate Valid()
      reads this
    {
      UniqueNames(rows) && forall id :: id in rows ==> id < nextId
    }

    constructor ()
      ensures Valid() && rows == map[]
    {
      rows := map[];
      nextId := 1;
    }

    /** `AddHandler`: every check happens before the insert, and a taken
      * name is refused. */
    method Add(usernameField: string, password: string, roleField: string,
               hashed: Option<string>, queryFails: bool, insertFails: bool) returns (r: Outcome)
      requires Valid()
      modifies this
      ensures Valid()
      ensures var name := TrimSpace(usernameField);
        r.Success? <==> name != "" && password != "" && roleField != "" && Atoi(roleField).Some?
                        && !queryFails && !NameTaken(old(rows), name, None) && hashed.Some? && !insertFails
      ensures var name := TrimSpace(usernameField);
        (name == "" || password == "" || roleField == "") ==> r == Failure(EmptyAdd)
      ensures var name := TrimSpace(usernameField);
        r.Success? ==> rows == old(rows)[old(nextId) := UserRow(name, hashed.value, Atoi(roleField).value)]
      ensures r.Failure? ==> rows == old(rows)
    {
      var username := TrimSpace(usernameField);
      if username == "" || password == "" || roleField == "" {
        return Failure(EmptyAdd);
      }
      var roleId := Atoi(roleField);
      if roleId.None? {
        return Failure(BadRole);
      }
      if queryFails {
        return Failure(QueryFailed);
      }
      if NameTaken(rows, username, None) {
        return Failure(NameExists);
      }
      if hashed.None? {
        return Failure(HashFailed);
      }
      if insertFails {
        return Failure(WriteFailed);
      }
      rows := rows[nextId := UserRow(username, hashed.value, roleId.value)];
      nextId := nextId + 1;
      r := Success;
    }

    /** `EditHandler`: the name may be kept but not taken from another
      * user; an empty password field keeps the old password; an id with
      * no row updates nothing. */
    method Edit(idField: string, usernameField: string, password: string, roleField: string,
                hashed: Option<string>, queryFails: bool, updateFails: bool) returns (r: Outcome)
      requires Valid()
      modifies this
      ensures Valid()
      ensures var name := TrimSpace(usernameField);
        r.Success? <==> idField != "" && name != "" && roleField != ""
                        && Atoi(idField).Some? && Atoi(roleField).Some? && !queryFails
                        && !NameTaken(old(rows), name, Atoi(idField))
                        && (password != "" ==> hashed.Some?) && !updateFails
      ensures var name := TrimSpace(usernameField);
        Atoi(idField).Some? && Atoi(idField).value !in old(rows) && name != "" ==> rows == old(rows)
      ensures var name := TrimSpace(usernameField);
        r.Success? && Atoi(idField).value in old(rows) ==>
          rows == old(rows)[Atoi(idField).value :=
            Edited(old(rows)[Atoi(idField).value], name, Atoi(roleField).value,
                   if password != "" then hashed else None)]
      ensures r.Failure? ==> rows == old(rows)
      ensures nextId == old(nextId)
    {
      var username := TrimSpace(usernameField);
      if idField == "" || username == "" || roleField == "" {
        return Failure(EmptyEdit);
      }
      var userId := Atoi(idField);
      if userId.None? {
        return Failure(BadId);
      }
      var roleId := Atoi(roleField);
      if roleId.None? {
        return Failure(BadRole);
      }
      if queryFails {
        return Failure(QueryFailed);
      }
      if NameTaken(rows, username, userId) {
        return Failure(NameUsed);
      }
      var newPassword: Option<string> := None;
      if password != "" {
        if hashed.None? {
          return Failure(HashFailed);
        }
        newPassword := hashed;
      }
      if updateFails {
        return Failure(WriteFailed);
      }
      var id := userId.value;
      if id in rows {
        rows := rows[id := Edited(rows[id], username, roleId.value, newPassword)];
      }
      r := Success;
    }

    /** `DeleteHandler`: the logged-in user's own row is never removed. */
    method Delete(idField: string, current: Option<int>, deleteFails: bool) returns (r: Outcome)
      requires Valid()
      modifies this
      ensures Valid()
      ensures r.Success? <==> idField != "" && Atoi(idField).Some?
                              && current != Atoi(idField) && !deleteFails
      ensures current.Some? && Atoi(idField) == current ==> r == Failure(SelfDelete)
      ensures r.Success? ==> rows == old(rows) - {Atoi(idField).value}
      ensures r.Failure? ==> rows == old(rows)
      ensures current.Some? && current.value in old(rows) ==> current.value in rows
      ensures nextId == old(nextId)
    {
      if idField == "" {
        return Failure(EmptyId);
      }
      var userId := Atoi(idField);
      if userId.None? {
        return Failure(BadId);
      }
      if current.Some? && current.value == userId.value {
        return Failure(SelfDelete);
      }
      if deleteFails {
        return Failure(WriteFailed);
      }
      rows := rows - {userId.value};
      r := Success;
    }
  }
}
