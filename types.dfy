/** The records the client exchanges with the competition API. */
module Types {
  import opened Js

  /** A teacher. At run time `_id` and `nome` can be missing (a session
      restored from storage carries whatever the stored object held), so
      both are optional here; `token` is optional in the declared type too. */
  datatype Professor = Professor(id: Option<string>, nome: Option<string>, token: Option<string>)

  /** The author of a problem, as the API embeds it. */
  datatype Author = Author(id: string, nome: string)

  /** A problem: difficulty `nivel` 1 to 3 and the points it is worth. */
  datatype Problema = Problema(
    id: string, titulo: string, descricao: string, nivel: int, pontos: int,
    professor: Author, ativo: bool, createdAt: string, updatedAt: string)

  /** The availability answer of `GET /status`. */
  datatype StatusResponse = StatusResponse(
    isAvailable: bool, currentHour: int, nextAvailableTime: Option<string>, message: string)

  datatype SubmissionStatus = StatusPending | StatusApproved | StatusRejected

  /** A submission; the problem and student references are kept as ids. */
  datatype Submission = Submission(
    id: string, challengeId: string, studentId: string, code: string,
    status: SubmissionStatus, feedback: Option<string>, createdAt: string, updatedAt: string)

  /** A registered student. */
  datatype Aluno = Aluno(
    id: string, nomeCompleto: string, ra: string, semestre: int, pontuacao: int,
    createdAt: string, updatedAt: string)
}
